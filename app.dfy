/** The configuration editor (app.py) without its Streamlit rendering:
    the single config.json slot with its load/save, the gating of the Save
    and Test buttons on the email check, and the initial selection of the
    condition selector. */
module App {
  import opened Wrappers
  import opened Env
  import opened Json
  import opened EmailSyntax
  import Sender
  import Monitor

  /** The selector's options, in order. */
  const ConditionOptions := [Monitor.GreaterOrEqual, Monitor.LessOrEqual]

  /** The dict save_config writes: exactly the three keys. */
  function ConfigRecord(email: string, targetRate: real, condition: string): (config: Json)
    ensures config.JObject? && config.fields.Keys == {"email", "target_rate", "condition"}
  {
    JObject(map["email" := JStr(email), "target_rate" := JNum(targetRate), "condition" := JStr(condition)])
  }

  /** What load_config returns when config.json does not exist. */
  const DefaultConfig := ConfigRecord("", 0.0, Monitor.GreaterOrEqual)

  /** json.load raising on text that is not JSON. */
  datatype LoadError = Undecodable

  /** The message the form shows after a button press. */
  datatype Notice = EmailRequired | EmailInvalid | Saved | TestSent | TestFailed

  /** The two checks both buttons run before acting: an empty address, then
      is_valid_email.  The first only changes the message: the empty string
      is never a valid address. */
  function EmailProblem(email: string): (problem: Option<Notice>)
    ensures problem.None? <==> IsValidEmail(email)
    ensures email == "" ==> problem == Some(EmailRequired)
    ensures email != "" && !IsValidEmail(email) ==> problem == Some(EmailInvalid)
  {
    RejectsSamples();
    if email == "" then Some(EmailRequired)
    else if !IsValidEmail(email) then Some(EmailInvalid)
    else None
  }

  /** The config.json file the editor and the monitor share. */
  class ConfigStore {
    var file: JsonFile

    constructor (file: JsonFile)
      ensures this.file == file
    {
      this.file := file;
    }

    /** load_config: the stored value as json.load decodes it (whatever its
        keys), the default record when there is no file; undecodable text
        raises. */
    function LoadConfig(): (r: Result<Json, LoadError>)
      reads this
      ensures file.NoFile? ==> r == Success(DefaultConfig)
      ensures file.Holds? ==> r == Success(file.value)
      ensures r.Failure? <==> file.Malformed?
    {
      match file
      case NoFile => Success(DefaultConfig)
      case Malformed => Failure(Undecodable)
      case Holds(value) => Success(value)
    }

    /** save_config: overwrites the whole file with the three given values;
        it checks none of them. */
    method SaveConfig(email: string, targetRate: real, condition: string)
      modifies this
      ensures file == Holds(ConfigRecord(email, targetRate, condition))
    {
      file := Holds(ConfigRecord(email, targetRate, condition));
    }

    /** The Save button: writes only an address that passes both checks and
        leaves the file untouched otherwise. */
    method SaveClicked(email: string, targetRate: real, condition: string) returns (notice: Notice)
      modifies this
      ensures notice == Saved <==> IsValidEmail(email)
      ensures notice != Saved ==> Some(notice) == EmailProblem(email) && file == old(file)
      ensures notice == Saved ==> file == Holds(ConfigRecord(email, targetRate, condition))
    {
      if email == "" {
        return EmailRequired;
      } else if !IsValidEmail(email) {
        return EmailInvalid;
      }
      SaveConfig(email, targetRate, condition);
      notice := Saved;
    }
  }

  /** After a save, load_config returns the saved record and each of its
      three fields reads back as written. */
  lemma LoadAfterSave(store: ConfigStore, email: string, targetRate: real, condition: string)
    requires store.file == Holds(ConfigRecord(email, targetRate, condition))
    ensures store.LoadConfig() == Success(ConfigRecord(email, targetRate, condition))
    ensures Subscript(store.LoadConfig().value, "email") == Some(JStr(email))
    ensures Subscript(store.LoadConfig().value, "target_rate") == Some(JNum(targetRate))
    ensures Subscript(store.LoadConfig().value, "condition") == Some(JStr(condition))
  {
  }

  /** The default has an empty address, so saving it as it stands is refused. */
  lemma DefaultIsNotSavable()
    ensures Subscript(DefaultConfig, "email") == Some(JStr(""))
    ensures Subscript(DefaultConfig, "condition") == Some(JStr(Monitor.GreaterOrEqual))
    ensures EmailProblem("") == Some(EmailRequired)
  {
  }

  /** The Test button: send_test_email runs only for an address that passes
      both checks; it then reports success or failure, never raising. */
  method TestClicked(email: string, apiKey: EnvValue, fromEmail: EnvValue, outbox: Sender.Outbox,
                     reply: Sender.ApiReply) returns (notice: Notice)
    modifies outbox
    ensures !IsValidEmail(email) ==> Some(notice) == EmailProblem(email)
    ensures IsValidEmail(email) ==>
              notice == (if Sender.CredentialFault(apiKey, fromEmail).None? && Sender.Accepted(reply)
                         then TestSent else TestFailed)
    ensures outbox.attempts == old(outbox.attempts) +
              if IsValidEmail(email) && Sender.CredentialFault(apiKey, fromEmail).None?
              then [Sender.Delivery(apiKey.value, Sender.Mail(fromEmail.value, JStr(email), Sender.TestSubject, Sender.TestBody))]
              else []
  {
    var problem := EmailProblem(email);
    if problem.Some? {
      return problem.value;
    }
    var ok := Sender.SendTestEmail(email, apiKey, fromEmail, outbox, reply);
    notice := if ok then TestSent else TestFailed;
  }

  /** The selector's initial index for the stored condition: 0 for
      "greater than or equal to", 1 for every other value. */
  function ConditionIndex(stored: Json): (index: nat)
    ensures index < |ConditionOptions|
    ensures index == 0 <==> stored == JStr(Monitor.GreaterOrEqual)
  {
    if stored == JStr(Monitor.GreaterOrEqual) then 0 else 1
  }

  /** A stored label is shown as itself; anything else is shown as "less
      than or equal to", which the next save then writes back. */
  lemma SelectorShowsStoredCondition(stored: Json)
    ensures stored.JStr? && stored.s in ConditionOptions ==> ConditionOptions[ConditionIndex(stored)] == stored.s
    ensures !(stored.JStr? && stored.s in ConditionOptions) ==>
              ConditionOptions[ConditionIndex(stored)] == Monitor.LessOrEqual
  {
  }
}
