/** The SendGrid-backed email sender (email_sender.py).  The SendGrid client
    is outside the model: every message send_email hands over is recorded in
    an Outbox, and SendGrid's answer is a parameter (a status code, or an
    exception raised while building or sending the message). */
module Sender {
  import opened Wrappers
  import opened Env
  import opened Json

  /** The status codes send_email treats as delivered. */
  const SuccessCodes: set<int> := {200, 201, 202}

  const TestSubject := "Test Email - Email Sender Configuration"

  const TestBody := "\n        This is a test email to verify the email sender configuration.\n        \n        If you received this email, the email sender is working correctly!\n        "

  /** What SendGrid does with one message: answers with a status code, or
      raises (bad message, network, authentication). */
  datatype ApiReply = Status(code: int) | Raised

  /** The recipient is whatever the caller passes (the monitor passes a value
      read from config.json), hence a JSON value rather than a string. */
  datatype Mail = Mail(sender: string, recipient: Json, subject: string, body: string)

  /** One message handed to SendGrid with the API key it was sent under. */
  datatype Delivery = Delivery(apiKey: string, mail: Mail)

  /** The raising checks of EmailSender.__init__. */
  datatype CredentialError = MissingApiKey | MissingSenderEmail

  /** Every message send_email has tried to deliver, oldest first. */
  class Outbox {
    var attempts: seq<Delivery>

    constructor ()
      ensures attempts == []
    {
      attempts := [];
    }

    method Hand(d: Delivery)
      modifies this
      ensures attempts == old(attempts) + [d]
    {
      attempts := attempts + [d];
    }
  }

  /** The error __init__ raises for the given SENDGRID_API_KEY and
      SENDGRID_FROM_EMAIL, or None when construction succeeds. */
  function CredentialFault(apiKey: EnvValue, fromEmail: EnvValue): (e: Option<CredentialError>)
    ensures e.None? <==> IsSet(apiKey) && IsSet(fromEmail)
    // the key is checked first: a missing key is reported even when the sender is missing too
    ensures !IsSet(apiKey) ==> e == Some(MissingApiKey)
    ensures e == Some(MissingSenderEmail) <==> IsSet(apiKey) && !IsSet(fromEmail)
  {
    if !IsSet(apiKey) then Some(MissingApiKey)
    else if !IsSet(fromEmail) then Some(MissingSenderEmail)
    else None
  }

  /** send_email's verdict on SendGrid's answer; an exception is caught and
      reported as failure, so the call never raises. */
  function Accepted(reply: ApiReply): (ok: bool)
    ensures ok <==> reply.Status? && 200 <= reply.code <= 202
  {
    match reply
    case Status(code) => code in SuccessCodes
    case Raised => false
  }

  class EmailSender {
    const apiKey: string
    const fromEmail: string

    predicate Valid() {
      apiKey != "" && fromEmail != ""
    }

    constructor (apiKey: string, fromEmail: string)
      requires apiKey != "" && fromEmail != ""
      ensures Valid() && this.apiKey == apiKey && this.fromEmail == fromEmail
    {
      this.apiKey := apiKey;
      this.fromEmail := fromEmail;
    }

    /** EmailSender(): reads the two credentials and raises when either is
        missing or empty; any sender it returns holds both. */
    static method Create(apiKey: EnvValue, fromEmail: EnvValue) returns (r: Result<EmailSender, CredentialError>)
      ensures r.Failure? <==> CredentialFault(apiKey, fromEmail).Some?
      ensures r.Failure? ==> Some(r.error) == CredentialFault(apiKey, fromEmail)
      ensures r.Success? ==>
                (fresh(r.value) && r.value.Valid() &&
                 Some(r.value.apiKey) == apiKey && Some(r.value.fromEmail) == fromEmail)
    {
      var fault := CredentialFault(apiKey, fromEmail);
      if fault.Some? {
        return Failure(fault.value);
      }
      var sender := new EmailSender(apiKey.value, fromEmail.value);
      return Success(sender);
    }

    /** send_email: hands one message from the configured sender to SendGrid
        and reports success exactly for status 200, 201 or 202. */
    method SendEmail(to: Json, subject: string, body: string, outbox: Outbox, reply: ApiReply) returns (ok: bool)
      modifies outbox
      ensures outbox.attempts == old(outbox.attempts) + [Delivery(apiKey, Mail(fromEmail, to, subject, body))]
      ensures ok == Accepted(reply)
    {
      outbox.Hand(Delivery(apiKey, Mail(fromEmail, to, subject, body)));
      ok := Accepted(reply);
    }
  }

  /** send_test_email: a construction failure is caught and reported as
      False; otherwise the fixed test message goes to the recipient. */
  method SendTestEmail(recipient: string, apiKey: EnvValue, fromEmail: EnvValue, outbox: Outbox, reply: ApiReply)
    returns (ok: bool)
    modifies outbox
    ensures ok <==> CredentialFault(apiKey, fromEmail).None? && Accepted(reply)
    ensures CredentialFault(apiKey, fromEmail).Some? ==> outbox.attempts == old(outbox.attempts)
    ensures CredentialFault(apiKey, fromEmail).None? ==>
      outbox.attempts == old(outbox.attempts) + [Delivery(apiKey.value, Mail(fromEmail.value, JStr(recipient), TestSubject, TestBody))]
  {
    var created := EmailSender.Create(apiKey, fromEmail);
    if created.Failure? {
      return false;
    }
    var sender := created.value;
    ok := sender.SendEmail(JStr(recipient), TestSubject, TestBody, outbox, reply);
  }
}
