# Interest-rate alert: a Dafny model

The system watches the 10-year US Treasury rate (FRED series DGS10). It
emails the configured address when the rate reaches a target in the
configured direction. The model covers its decision logic:

- **monitor.py** (`Monitor`): `check_conditions`; the guard chain of
  `get_current_rate` over an abstract FRED reply; and one check cycle
  (`main`) as a method. The method is proved to follow the specification
  function `Cycle`.
- **email_sender.py** (`Sender`): the credential checks of
  `EmailSender.__init__` and the status mapping of `send_email`, which never
  raises. Also `send_test_email`. Every message handed to SendGrid is
  recorded in an `Outbox`.
- **app.py** (`App`, `EmailSyntax`): the `config.json` slot with `load_config`
  and `save_config`, and the email gating of the Save and Test buttons. Also
  the initial selector index, and `is_valid_email`, written as an
  executable matcher proved equal to the regular language.
- **check_api_key.py** (`ApiKeyCheck`): the printed diagnostics, as a list.
- `EndToEnd` joins the editor and the monitor through `config.json`: a saved
  record is always readable by the monitor, whose decision is then
  `check_conditions` on the saved values.

Python's dynamic typing is modelled explicitly. `config.json` and the FRED
body are `Json` values. Truthiness (`Truthy`) is a total predicate, since it
never raises. Python's `in` and `[...]` are functions that return `None`
where Python raises TypeError or KeyError. Such an exception ends
`get_current_rate` with `UnknownError`, and a check cycle with `Crashed`,
because that is where the source's `except Exception` catches it.
`float()` on the observation value splits in two: a string it cannot parse
raises ValueError, which ends `get_current_rate` with `DataError`; a value
of the wrong type (null, list, dict) raises TypeError, which ends it with
`UnknownError`.

The FRED server (`Request -> HttpReply`), the string-to-float conversion
(`string -> Option<real>`), SendGrid's answer (`ApiReply`) and the
environment variables (`Option<string>`) are parameters.

`is_valid_email` is modelled as written. Python's `$` also matches just
before a final newline, so `"a@b.com\n"` is accepted. Two trailing newlines
are rejected. The lemmas `AcceptsFinalNewline` and `RejectsTwoNewlines`
state this.

The model follows the code where it does less than a rate monitor of this
kind might be expected to do:
- There is no rate cache and no retry: a failed fetch ends the cycle.
- `save_config` does not validate `target_rate` (0..100 is only the
  widget's range) and does not validate the email. Only the Save button
  checks the email.
- An unknown condition makes `check_conditions` return False. It is not
  reported as an error.

## Model

| member | source | states |
|---|---|---|
| `Monitor.ConditionMet` | monitor.py:66-72 | "greater than or equal to" holds iff current >= target; "less than or equal to" holds iff current <= target; any other label never holds |
| `Monitor.ConditionsCoverEveryRate` | monitor.py:68-71 | at least one of the two conditions holds for every rate, and both hold exactly when current == target |
| `Monitor.CheckConditions` | monitor.py:66-72 | on config values: an unknown condition of any JSON type gives False without touching the target; a known one raises exactly when the target is not a number or boolean; True exactly when ConditionMet holds on the numeric target |
| `Monitor.GetCurrentRate` | monitor.py:16-64 | no key gives NoApiKey; a rate is returned exactly when the reply to the DGS10 query has status 200, a documented body with a non-empty observations list whose first `value` is not "." and converts with float(); a non-200 status is reported with its code |
| `Monitor.NoKeyNoRequest` | monitor.py:21-25 | with FRED_API_KEY unset or empty the outcome is NoApiKey whatever the server would answer, so no request is made |
| `Monitor.OnlyTheRateQueryMatters` | monitor.py:29-39 | with a key, the outcome depends only on the server's reply to the one query for the newest DGS10 observation |
| `Monitor.MarkerIsNoRate` | monitor.py:45-51 | a "." value is MissingObservation even when float() would accept it |
| `Monitor.WellFormedReplyYieldsRate` | monitor.py:41-49 | a 200 reply whose first observation has a parsable non-"." value yields that value |
| `Monitor.NoObservationsIsNoRate` | monitor.py:43-53 | missing or empty observations give UnexpectedFormat |
| `Monitor.CheckFields` | monitor.py:86-90 | the field loop gives AllPresent iff `in` answers True for every required field; Missing names the first field, in loop order, that `in` answers False for, every earlier one being present; a dict never raises |
| `Monitor.RunCycle` | monitor.py:74-140 | the cycle ends as Cycle says; SendGrid gets no message unless it ends Notified, and then exactly one message, from the sender address, to config["email"], with the notification subject |
| `Monitor.MissingFieldAbortsBeforeFetch` | monitor.py:86-97 | a dict lacking a required field ends at MissingField for an absent required field, and no fetch, parse or send affects the outcome |
| `Monitor.NoRateNoNotification` | monitor.py:97-100 | when no rate is fetched there is no notification, and a complete config ends at RateUnavailable with the fetch's reason |
| `Monitor.NotifiedOnlyWhenConditionHolds` | monitor.py:97-130 | a notification implies a complete dict config, a fetched rate, check_conditions True for it and both SendGrid credentials set; delivered is send_email's verdict |
| `Monitor.NotifiesExactlyWhenConditionMet` | monitor.py:103-135 | for a complete config with numeric target, a fetched rate and credentials set, the cycle notifies iff ConditionMet, else ends ConditionNotMet |
| `Monitor.UnknownConditionNeverNotifies` | monitor.py:66-72 | a condition other than the two labels never leads to a mail or to an exception |
| `Sender.CredentialFault` | email_sender.py:17-29 | construction fails iff the API key or the sender address is unset or empty; a missing key is reported first; MissingSenderEmail iff the key is set and the sender is not |
| `Sender.EmailSender.Create` | email_sender.py:17-29 | fails with exactly CredentialFault's error; a sender it returns is fresh and holds the two non-empty environment values |
| `Sender.Accepted` | email_sender.py:54-66 | success iff SendGrid answered with status 200, 201 or 202; an exception is failure |
| `Sender.EmailSender.SendEmail` | email_sender.py:31-66 | hands exactly one message (configured sender, given recipient, subject, body, under the sender's key) to SendGrid and returns Accepted of the answer |
| `Sender.SendTestEmail` | email_sender.py:68-91 | a construction failure gives False and sends nothing; otherwise exactly one test message with the fixed subject goes to the recipient, and the result is Accepted of the answer |
| `EmailSyntax.IsValidEmailDecidesPattern` | app.py:28-30 | the matcher accepts exactly L "@" D "." T, optionally followed by one "\n" (L over [A-Za-z0-9._%+-]+, D over [A-Za-z0-9.-]+, T two or more letters) |
| `EmailSyntax.MatchesWholeIsPattern` | app.py:29 | the first-'@'/last-'.' scan decides the anchored pattern exactly |
| `EmailSyntax.AcceptedHasOneAt` | app.py:29 | an accepted address contains exactly one '@' |
| `EmailSyntax.RejectsWithoutAt` | app.py:29-30 | a string without '@', the empty string among them, is rejected |
| `EmailSyntax.AcceptedEndsInTld` | app.py:29 | after the last '.' of an accepted address (minus the one final newline) come two or more letters |
| `EmailSyntax.AcceptsParts` | app.py:29-30 | every local@domain.tld drawn from the pattern's classes is accepted, with or without one final newline |
| `EmailSyntax.RejectsTwoNewlines` | app.py:29-30 | no string followed by two newlines is accepted |
| `EmailSyntax.AcceptsUserAtExample` | app.py:28-30 | "user@example.com" is accepted |
| `EmailSyntax.AcceptsFinalNewline` | app.py:28-30 | "a@b.com\n" is accepted, because `$` matches before a final newline |
| `EmailSyntax.RejectsSamples` | app.py:28-30 | "not-an-email" and "" are rejected |
| `App.ConfigRecord` | app.py:19-24 | the saved record has exactly the keys email, target_rate and condition |
| `App.EmailProblem` | app.py:86-89 | both buttons go ahead iff is_valid_email holds; an empty address gets the "enter an address" message and any other invalid one the "valid address" message |
| `App.ConfigStore.LoadConfig` | app.py:12-17 | no file gives the default record; a decoded file gives its value unchanged; undecodable text raises |
| `App.ConfigStore.SaveConfig` | app.py:19-26 | the file afterwards holds exactly the record of the three given values, nothing checked |
| `App.ConfigStore.SaveClicked` | app.py:99-107 | the file is overwritten iff the address is valid; otherwise it is unchanged and the form shows the matching message |
| `App.LoadAfterSave` | app.py:12-26 | after save_config, load_config returns the saved record and its three fields read back as written |
| `App.DefaultIsNotSavable` | app.py:17 | the default record has an empty email and "greater than or equal to"; saving an empty email is refused |
| `App.TestClicked` | app.py:86-96 | a test mail is attempted only for a valid address with credentials set; the message is TestSent iff construction succeeded and SendGrid accepted |
| `App.ConditionIndex` | app.py:79-83 | the selector starts at index 0 iff the stored condition is "greater than or equal to", else at 1 |
| `App.SelectorShowsStoredCondition` | app.py:79-83 | a stored label is shown as itself; any other stored value is shown as "less than or equal to" |
| `ApiKeyCheck.CheckApiKey` | check_api_key.py:7-22 | an unset or empty key gives only the not-found error; otherwise exactly the first min(6, len) characters of the key, its length, then the prefix warning iff it does not start with "SG.", then the length warning iff it is shorter than 50, and nothing else |
| `ApiKeyCheck.WarningsAreIndependent` | check_api_key.py:18-22 | each of the four combinations of the two warnings is drawn by some key |
| `EndToEnd.SavedConfigIsComplete` | monitor.py:86-90 | a record written by save_config passes the monitor's required-field loop |
| `EndToEnd.SavedConfigDecidedByCondition` | monitor.py:97-135 | on a saved config with a fetched rate and credentials set, the cycle notifies iff the saved condition holds for the rate |
| `EndToEnd.SavedConfigNeverFails` | monitor.py:74-103 | a saved config never ends a cycle in an exception, a missing field or a config-file error |
| `EndToEnd.RateAboveTargetNotifies` | monitor.py:103-130 | rate 4.5 against {a@b.com, 4.0, greater than or equal to} is notified |
| `EndToEnd.RateBelowTargetDoesNotNotify` | monitor.py:103-135 | rate 3.9 against the same config ends ConditionNotMet |
| `EndToEnd.RateAboveTargetSendsOneMail` | monitor.py:106-126 | that cycle hands exactly one message, addressed to "a@b.com" with the notification subject, to SendGrid |

## Left out

- Streamlit rendering (page setup, CSS, titles, columns, spinner, expanders) and the widgets' own range and step. The number input's 0-100 range is not part of `save_config`.
- The yfinance rate display in app.py: a foreign library call and float formatting.
- `Monitor.GetCurrentRate`: an undecodable 200 body is labelled `DataError`, the `except ValueError` handler. With requests 2.27 or later that error is also a `RequestException` and is caught by the first handler, so only the log line differs; the result is None either way.
- The HTTP GET and `response.json()`: the server's reply (exception, status, decoded body or undecodable body) is a parameter.
- `float()` on a string: an abstract partial parser parameter. IEEE floats, NaN and infinities are not modelled; rates and targets are reals.
- `load_dotenv` and `os.getenv`: each variable is an optional string parameter.
- The SendGrid client and `Mail` construction: an `Outbox` records each message `send_email` tries to deliver, and SendGrid's answer (status or exception) is a parameter.
- Logging, the notification body text and its timestamp: the cycle takes the body as a parameter, and log lines appear only as the distinct outcomes of `FetchFailure` and `CycleEnd`.
- I/O errors other than a missing or undecodable `config.json` (permissions, a failed write in `save_config`).
- The app's form initialisation from a loaded record that lacks a key (`config["email"]` raising KeyError): only the selector index is modelled, from the stored condition value.
- test_email.py and test_sendgrid.py: interactive or live-send scripts with no logic beyond `EmailSender`.
