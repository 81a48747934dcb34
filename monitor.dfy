/** The rate monitor (monitor.py): one check cycle reads config.json, fetches
    the latest 10-year Treasury rate from FRED, compares it with the target
    and sends at most one notification.  The FRED server, float() on a
    string and SendGrid's answer are parameters; logging is left out, but
    every way the cycle can end is a distinct CycleEnd. */
module Monitor {
  import opened Wrappers
  import opened Env
  import opened Json
  import Sender

  const GreaterOrEqual := "greater than or equal to"
  const LessOrEqual := "less than or equal to"

  // ---------------------------------------------------------------------
  // check_conditions

  /** check_conditions on a numeric target and a condition label. */
  function ConditionMet(current: real, target: real, condition: string): (met: bool)
    ensures condition == GreaterOrEqual ==> (met <==> current >= target)
    ensures condition == LessOrEqual ==> (met <==> current <= target)
    ensures condition != GreaterOrEqual && condition != LessOrEqual ==> !met
  {
    if condition == GreaterOrEqual then current >= target
    else if condition == LessOrEqual then current <= target
    else false
  }

  /** At the target itself both conditions hold; elsewhere exactly one does. */
  lemma ConditionsCoverEveryRate(current: real, target: real)
    ensures ConditionMet(current, target, GreaterOrEqual) || ConditionMet(current, target, LessOrEqual)
    ensures ConditionMet(current, target, GreaterOrEqual) && ConditionMet(current, target, LessOrEqual)
            <==> current == target
  {
  }

  /** check_conditions as the cycle calls it, on values read from
      config.json: a condition that is not one of the two labels (of any JSON
      type) gives False without looking at the target; for a known label, a
      target that Python cannot compare with a float raises (None). */
  function CheckConditions(current: real, target: Json, condition: Json): (r: Option<bool>)
    ensures condition != JStr(GreaterOrEqual) && condition != JStr(LessOrEqual) ==> r == Some(false)
    ensures r.None? <==> (condition == JStr(GreaterOrEqual) || condition == JStr(LessOrEqual)) && AsNumber(target).None?
    ensures r == Some(true) <==>
              condition.JStr? && AsNumber(target).Some? && ConditionMet(current, AsNumber(target).value, condition.s)
  {
    if condition == JStr(GreaterOrEqual) || condition == JStr(LessOrEqual) then
      match AsNumber(target)
      case None => None
      case Some(t) => Some(ConditionMet(current, t, condition.s))
    else
      Some(false)
  }

  // ---------------------------------------------------------------------
  // get_current_rate

  const FredEndpoint := "https://api.stlouisfed.org/fred/series/observations"
  /** FRED's 10-year Treasury constant maturity series. */
  const SeriesId := "DGS10"
  /** FRED's marker for a missing observation. */
  const MissingMarker := "."

  datatype Request = Request(url: string, seriesId: string, apiKey: string, sortOrder: string,
                             limit: nat, fileType: string, timeoutSeconds: nat)

  /** The one GET get_current_rate issues: the newest observation only. */
  function RateQuery(apiKey: string): Request {
    Request(FredEndpoint, SeriesId, apiKey, "desc", 1, "json", 10)
  }

  /** What requests.get yields: an exception (connection, timeout), or a
      status and a body that response.json() decodes or rejects (None). */
  datatype HttpReply = RequestFailed | Reply(status: int, body: Option<Json>)

  /** Why get_current_rate returned None, one case per log line or except
      clause of the source. */
  datatype FetchFailure =
    | NoApiKey            // FRED_API_KEY unset or empty; no request is made
    | RequestError        // requests raised
    | HttpStatus(code: int)
    | UnexpectedFormat    // observations missing or empty
    | MissingObservation  // the newest value is "."
    | DataError           // ValueError: the body or the value does not parse (see Reply below)
    | UnknownError        // any other exception (a body of an unexpected shape)

  datatype FetchResult = Rate(value: real) | NoRate(reason: FetchFailure)

  function RateOf(r: FetchResult): Option<real> {
    if r.Rate? then Some(r.value) else None
  }

  /** `observations[0]`: the first element of a list, the first character of
      a string; a dict raises KeyError (its keys are strings). */
  function FirstItem(obs: Json): Option<Json>
    requires Truthy(obs)
  {
    match obs
    case JArray(items) => Some(items[0])
    case JStr(s) => Some(JStr([s[0]]))
    case _ => None
  }

  /** float(value) on a decoded JSON value: strings go to the parser, and
      a ValueError is DataError; numbers and booleans convert; anything else
      raises TypeError. */
  function ToFloat(value: Json, parse: string -> Option<real>): FetchResult {
    match value
    case JStr(s) => (match parse(s) case Some(x) => Rate(x) case None => NoRate(DataError))
    case JNum(n) => Rate(n)
    case JBool(b) => Rate(if b then 1.0 else 0.0)
    case _ => NoRate(UnknownError)
  }

  /** The newest observation's value when the body has the shape FRED
      documents: {"observations": [{"value": v, ...}, ...], ...}. */
  function NewestValue(body: Json): Option<Json> {
    if body.JObject? && "observations" in body.fields
       && body.fields["observations"].JArray? && body.fields["observations"].items != []
       && body.fields["observations"].items[0].JObject?
       && "value" in body.fields["observations"].items[0].fields
    then Some(body.fields["observations"].items[0].fields["value"])
    else None
  }

  /** The rate a reply carries: status 200, the documented shape, a value
      other than "." that float() accepts. */
  function ServedRate(reply: HttpReply, parse: string -> Option<real>): Option<real> {
    if reply.Reply? && reply.status == 200 && reply.body.Some?
       && NewestValue(reply.body.value).Some? && NewestValue(reply.body.value).value != JStr(MissingMarker)
    then RateOf(ToFloat(NewestValue(reply.body.value).value, parse))
    else None
  }

  /** get_current_rate, branch by branch: the key check, the GET, the status
      check, response.json(), data.get('observations') and its truthiness,
      len(), [0]['value'], the "." check, float(). */
  function GetCurrentRate(apiKey: EnvValue, server: Request -> HttpReply, parse: string -> Option<real>)
    : (r: FetchResult)
    ensures !IsSet(apiKey) ==> r == NoRate(NoApiKey)
    ensures RateOf(r) == if IsSet(apiKey) then ServedRate(server(RateQuery(apiKey.value)), parse) else None
    ensures IsSet(apiKey) && server(RateQuery(apiKey.value)).Reply? && server(RateQuery(apiKey.value)).status != 200
            ==> r == NoRate(HttpStatus(server(RateQuery(apiKey.value)).status))
  {
    if !IsSet(apiKey) then NoRate(NoApiKey)
    else match server(RateQuery(apiKey.value))
      case RequestFailed => NoRate(RequestError)
      case Reply(status, body) =>
        if status != 200 then NoRate(HttpStatus(status))
        // response.json() failing: a ValueError here; requests 2.27 and later raise
        // requests.exceptions.JSONDecodeError, also a RequestException, which the
        // first handler catches (RequestError). Either way the result is None.
        else if body.None? then NoRate(DataError)
        else if !body.value.JObject? then NoRate(UnknownError)
        else
          var obs := Get(body.value.fields, "observations");
          if !Truthy(obs) then NoRate(UnexpectedFormat)
          else if !(obs.JArray? || obs.JStr? || obs.JObject?) then NoRate(UnknownError)
          else match FirstItem(obs)
            case None => NoRate(UnknownError)
            case Some(first) =>
              match Subscript(first, "value")
              case None => NoRate(UnknownError)
              case Some(value) =>
                if value == JStr(MissingMarker) then NoRate(MissingObservation)
                else ToFloat(value, parse)
  }

  /** Without a key no request is made: the server is never consulted. */
  lemma NoKeyNoRequest(apiKey: EnvValue, server1: Request -> HttpReply, server2: Request -> HttpReply,
                       parse: string -> Option<real>)
    requires !IsSet(apiKey)
    ensures GetCurrentRate(apiKey, server1, parse) == GetCurrentRate(apiKey, server2, parse) == NoRate(NoApiKey)
  {
  }

  /** With a key, the only thing the outcome depends on is the server's reply
      to the one query for the newest DGS10 observation. */
  lemma OnlyTheRateQueryMatters(key: string, server1: Request -> HttpReply, server2: Request -> HttpReply,
                                parse: string -> Option<real>)
    requires key != ""
    requires server1(RateQuery(key)) == server2(RateQuery(key))
    ensures GetCurrentRate(Some(key), server1, parse) == GetCurrentRate(Some(key), server2, parse)
  {
  }

  /** The "." marker is never handed to float(), whatever float() would make
      of it. */
  lemma MarkerIsNoRate(key: string, server: Request -> HttpReply, parse: string -> Option<real>,
                       rest: map<string, Json>, others: seq<Json>)
    requires key != ""
    requires server(RateQuery(key)) ==
             Reply(200, Some(JObject(map["observations" := JArray([JObject(rest["value" := JStr(MissingMarker)])] + others)])))
    ensures GetCurrentRate(Some(key), server, parse) == NoRate(MissingObservation)
  {
  }

  /** A well-formed FRED answer with a parsable value yields that value. */
  lemma WellFormedReplyYieldsRate(key: string, server: Request -> HttpReply, parse: string -> Option<real>,
                                  text: string, rate: real, rest: map<string, Json>, others: seq<Json>)
    requires key != "" && text != MissingMarker && parse(text) == Some(rate)
    requires server(RateQuery(key)) ==
             Reply(200, Some(JObject(map["observations" := JArray([JObject(rest["value" := JStr(text)])] + others)])))
    ensures GetCurrentRate(Some(key), server, parse) == Rate(rate)
  {
  }

  /** Missing or empty observations are reported as an unexpected format. */
  lemma NoObservationsIsNoRate(key: string, server: Request -> HttpReply, parse: string -> Option<real>,
                               fields: map<string, Json>)
    requires key != ""
    requires "observations" !in fields || fields["observations"] == JArray([])
    requires server(RateQuery(key)) == Reply(200, Some(JObject(fields)))
    ensures GetCurrentRate(Some(key), server, parse) == NoRate(UnexpectedFormat)
  {
  }

  // ---------------------------------------------------------------------
  // main: one check cycle

  const RequiredFields := ["email", "target_rate", "condition"]

  const NotificationSubject := "\U{5229}\U{7387}\U{76E3}\U{63A7}\U{901A}\U{77E5} - \U{76EE}\U{6A19}\U{689D}\U{4EF6}\U{5DF2}\U{9054}\U{6210}"

  /** The outcome of the required-field loop. */
  datatype FieldCheck = AllPresent | Missing(field: string) | CheckRaised

  /** The loop over the required fields, from the front: the first field
      `in` reports absent ends it, and so does a TypeError from `in`. */
  function CheckFields(config: Json, fields: seq<string>): (c: FieldCheck)
    ensures c == AllPresent <==> forall i :: 0 <= i < |fields| ==> Contains(config, fields[i]) == Some(true)
    ensures c.Missing? ==> c.field in fields && Contains(config, c.field) == Some(false)
    // Missing names the FIRST absent field, in the order of `fields`
    ensures c.Missing? ==> exists k :: 0 <= k < |fields| && fields[k] == c.field
                                       && forall j :: 0 <= j < k ==> Contains(config, fields[j]) == Some(true)
    ensures config.JObject? ==> c != CheckRaised
  {
    if fields == [] then AllPresent
    else match Contains(config, fields[0])
      case None => CheckRaised
      case Some(false) => Missing(fields[0])
      case Some(true) => CheckFields(config, fields[1..])
  }

  /** A dict that passed the loop holds every required key. */
  lemma AllPresentHasKeys(config: Json)
    requires config.JObject? && CheckFields(config, RequiredFields) == AllPresent
    ensures "email" in config.fields && "target_rate" in config.fields && "condition" in config.fields
  {
    assert Contains(config, RequiredFields[0]) == Some(true);
    assert Contains(config, RequiredFields[1]) == Some(true);
    assert Contains(config, RequiredFields[2]) == Some(true);
  }

  /** The environment the cycle reads through os.getenv. */
  datatype Environment = Environment(fredKey: EnvValue, sendGridKey: EnvValue, senderEmail: EnvValue)

  /** How a check cycle ends. */
  datatype CycleEnd =
    | NoConfigFile                                   // config.json does not exist
    | ConfigUnreadable                               // json.JSONDecodeError
    | MissingField(field: string)                    // a required field is absent
    | RateUnavailable(reason: FetchFailure)          // get_current_rate returned None
    | ConditionNotMet(rate: real)
    | SenderUnavailable(error: Sender.CredentialError) // EmailSender() raised
    | Notified(rate: real, delivered: bool)          // send_email was called
    | Crashed                                        // another exception, caught by main

  /** The cycle as a function of its inputs; RunCycle is proved to follow it. */
  function Cycle(file: JsonFile, env: Environment, server: Request -> HttpReply,
                 parse: string -> Option<real>, reply: Sender.ApiReply): CycleEnd
  {
    match file
    case NoFile => NoConfigFile
    case Malformed => ConfigUnreadable
    case Holds(config) =>
      match CheckFields(config, RequiredFields)
      case CheckRaised => Crashed
      case Missing(field) => MissingField(field)
      case AllPresent =>
        if !config.JObject? then Crashed   // config['email'] on a list or a string
        else
          AllPresentHasKeys(config);
          match GetCurrentRate(env.fredKey, server, parse)
          case NoRate(reason) => RateUnavailable(reason)
          case Rate(rate) =>
            match CheckConditions(rate, config.fields["target_rate"], config.fields["condition"])
            case None => Crashed
            case Some(false) => ConditionNotMet(rate)
            case Some(true) =>
              match Sender.CredentialFault(env.sendGridKey, env.senderEmail)
              case Some(e) => SenderUnavailable(e)
              case None => Notified(rate, Sender.Accepted(reply))
  }

  /** main(): the required-field loop with its early return, then fetch,
      evaluate and, when the condition holds, one send_email to the
      configured address.  `body` stands for the formatted message text. */
  method RunCycle(file: JsonFile, env: Environment, server: Request -> HttpReply,
                  parse: string -> Option<real>, outbox: Sender.Outbox, reply: Sender.ApiReply, body: string)
    returns (end: CycleEnd)
    modifies outbox
    ensures end == Cycle(file, env, server, parse, reply)
    ensures !end.Notified? ==> outbox.attempts == old(outbox.attempts)
    ensures end.Notified? ==>
              file.Holds? && file.value.JObject? && "email" in file.value.fields &&
              outbox.attempts == old(outbox.attempts) +
                [Sender.Delivery(env.sendGridKey.value,
                   Sender.Mail(env.senderEmail.value, file.value.fields["email"], NotificationSubject, body))]
  {
    if file.NoFile? {
      return NoConfigFile;
    }
    if file.Malformed? {
      return ConfigUnreadable;
    }
    var config := file.value;
    for i := 0 to |RequiredFields|
      invariant CheckFields(config, RequiredFields) == CheckFields(config, RequiredFields[i..])
    {
      var present := Contains(config, RequiredFields[i]);
      if present.None? {
        return Crashed;
      }
      if !present.value {
        return MissingField(RequiredFields[i]);
      }
      assert RequiredFields[i..][1..] == RequiredFields[i + 1..];
    }
    if !config.JObject? {
      return Crashed;
    }
    AllPresentHasKeys(config);
    var fetched := GetCurrentRate(env.fredKey, server, parse);
    if fetched.NoRate? {
      return RateUnavailable(fetched.reason);
    }
    var rate := fetched.value;
    var met := CheckConditions(rate, config.fields["target_rate"], config.fields["condition"]);
    if met.None? {
      return Crashed;
    }
    if !met.value {
      return ConditionNotMet(rate);
    }
    var created := Sender.EmailSender.Create(env.sendGridKey, env.senderEmail);
    if created.Failure? {
      return SenderUnavailable(created.error);
    }
    var sender := created.value;
    var delivered := sender.SendEmail(config.fields["email"], NotificationSubject, body, outbox, reply);
    end := Notified(rate, delivered);
  }

  // ---------------------------------------------------------------------
  // What a cycle promises

  /** A config dict lacking a required field ends the cycle at the first
      missing one, before anything is fetched: neither the FRED server nor the
      parser nor SendGrid affects the outcome. */
  lemma {:induction false} MissingFieldAbortsBeforeFetch(fields: map<string, Json>, env: Environment,
      server1: Request -> HttpReply, server2: Request -> HttpReply,
      parse1: string -> Option<real>, parse2: string -> Option<real>,
      reply1: Sender.ApiReply, reply2: Sender.ApiReply)
    requires exists i :: 0 <= i < |RequiredFields| && RequiredFields[i] !in fields
    ensures Cycle(Holds(JObject(fields)), env, server1, parse1, reply1).MissingField?
    ensures Cycle(Holds(JObject(fields)), env, server1, parse1, reply1).field in RequiredFields
    ensures Cycle(Holds(JObject(fields)), env, server1, parse1, reply1).field !in fields
    ensures Cycle(Holds(JObject(fields)), env, server1, parse1, reply1)
         == Cycle(Holds(JObject(fields)), env, server2, parse2, reply2)
  {
    var i :| 0 <= i < |RequiredFields| && RequiredFields[i] !in fields;
    assert Contains(JObject(fields), RequiredFields[i]) == Some(false);
  }

  /** A missing rate ends the cycle with the fetch failure and no mail. */
  lemma NoRateNoNotification(file: JsonFile, env: Environment, server: Request -> HttpReply,
                             parse: string -> Option<real>, reply: Sender.ApiReply)
    requires GetCurrentRate(env.fredKey, server, parse).NoRate?
    ensures !Cycle(file, env, server, parse, reply).Notified?
    ensures file.Holds? && file.value.JObject? && CheckFields(file.value, RequiredFields) == AllPresent ==>
              Cycle(file, env, server, parse, reply) == RateUnavailable(GetCurrentRate(env.fredKey, server, parse).reason)
  {
  }

  /** A mail goes out only when the stored config is a complete dict, a rate
      was fetched, check_conditions said True for it and the sender could be
      built; the rate reported is the fetched one. */
  lemma NotifiedOnlyWhenConditionHolds(file: JsonFile, env: Environment, server: Request -> HttpReply,
                                       parse: string -> Option<real>, reply: Sender.ApiReply)
    requires Cycle(file, env, server, parse, reply).Notified?
    ensures file.Holds? && file.value.JObject?
    ensures CheckFields(file.value, RequiredFields) == AllPresent
    ensures "email" in file.value.fields && "target_rate" in file.value.fields && "condition" in file.value.fields
    ensures GetCurrentRate(env.fredKey, server, parse) == Rate(Cycle(file, env, server, parse, reply).rate)
    ensures CheckConditions(Cycle(file, env, server, parse, reply).rate,
                            file.value.fields["target_rate"], file.value.fields["condition"]) == Some(true)
    ensures IsSet(env.sendGridKey) && IsSet(env.senderEmail)
    ensures Cycle(file, env, server, parse, reply).delivered == Sender.Accepted(reply)
  {
    AllPresentHasKeys(file.value);
  }

  /** For a complete config with a numeric target and a fetched rate, and
      with SendGrid credentials set, the cycle notifies exactly when the
      condition holds, and otherwise reports the condition as not met. */
  lemma {:induction false} NotifiesExactlyWhenConditionMet(fields: map<string, Json>, env: Environment,
      server: Request -> HttpReply, parse: string -> Option<real>, reply: Sender.ApiReply,
      rate: real, target: real, condition: string)
    requires "email" in fields && "target_rate" in fields && "condition" in fields
    requires fields["target_rate"] == JNum(target) && fields["condition"] == JStr(condition)
    requires GetCurrentRate(env.fredKey, server, parse) == Rate(rate)
    requires IsSet(env.sendGridKey) && IsSet(env.senderEmail)
    ensures Cycle(Holds(JObject(fields)), env, server, parse, reply)
         == if ConditionMet(rate, target, condition) then Notified(rate, Sender.Accepted(reply))
            else ConditionNotMet(rate)
  {
    assert CheckFields(JObject(fields), RequiredFields) == AllPresent;
  }

  /** A condition other than the two labels never leads to a mail. */
  lemma UnknownConditionNeverNotifies(fields: map<string, Json>, env: Environment,
      server: Request -> HttpReply, parse: string -> Option<real>, reply: Sender.ApiReply)
    requires "condition" in fields
    requires fields["condition"] != JStr(GreaterOrEqual) && fields["condition"] != JStr(LessOrEqual)
    ensures !Cycle(Holds(JObject(fields)), env, server, parse, reply).Notified?
    ensures !Cycle(Holds(JObject(fields)), env, server, parse, reply).Crashed?
  {
  }
}
