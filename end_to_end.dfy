/** How the editor and the monitor fit together through config.json:
    whatever the Save button writes, the monitor reads without error, and
    its decision is then check_conditions on the saved values. */
module EndToEnd {
  import opened Wrappers
  import opened Env
  import opened Json
  import Sender
  import Monitor
  import App

  /** A record written by save_config passes the monitor's field loop. */
  lemma {:induction false} SavedConfigIsComplete(email: string, targetRate: real, condition: string)
    ensures Monitor.CheckFields(App.ConfigRecord(email, targetRate, condition), Monitor.RequiredFields)
            == Monitor.AllPresent
  {
    var config := App.ConfigRecord(email, targetRate, condition);
    forall i | 0 <= i < |Monitor.RequiredFields|
      ensures Contains(config, Monitor.RequiredFields[i]) == Some(true)
    {
      assert Monitor.RequiredFields[i] in config.fields.Keys;
    }
  }

  /** On a saved config, once a rate is fetched and the SendGrid credentials
      are set, the cycle notifies exactly when the saved condition holds for
      that rate and never ends in an error of its own. */
  lemma {:induction false} SavedConfigDecidedByCondition(email: string, targetRate: real, condition: string,
      env: Monitor.Environment, server: Monitor.Request -> Monitor.HttpReply,
      parse: string -> Option<real>, reply: Sender.ApiReply, rate: real)
    requires Monitor.GetCurrentRate(env.fredKey, server, parse) == Monitor.Rate(rate)
    requires IsSet(env.sendGridKey) && IsSet(env.senderEmail)
    ensures Monitor.Cycle(Holds(App.ConfigRecord(email, targetRate, condition)), env, server, parse, reply)
         == if Monitor.ConditionMet(rate, targetRate, condition) then Monitor.Notified(rate, Sender.Accepted(reply))
            else Monitor.ConditionNotMet(rate)
  {
    var config := App.ConfigRecord(email, targetRate, condition);
    Monitor.NotifiesExactlyWhenConditionMet(config.fields, env, server, parse, reply, rate, targetRate, condition);
  }

  /** A saved config never crashes the cycle and never misses a field,
      whatever the fetch and the credentials do. */
  lemma {:induction false} SavedConfigNeverFails(email: string, targetRate: real, condition: string,
      env: Monitor.Environment, server: Monitor.Request -> Monitor.HttpReply,
      parse: string -> Option<real>, reply: Sender.ApiReply)
    ensures var end := Monitor.Cycle(Holds(App.ConfigRecord(email, targetRate, condition)), env, server, parse, reply);
            !end.Crashed? && !end.MissingField? && !end.NoConfigFile? && !end.ConfigUnreadable?
  {
    SavedConfigIsComplete(email, targetRate, condition);
  }

  /** Rate 4.5 against {a@b.com, 4.0, greater than or equal to}: notified. */
  lemma RateAboveTargetNotifies(env: Monitor.Environment, server: Monitor.Request -> Monitor.HttpReply,
                                parse: string -> Option<real>, reply: Sender.ApiReply)
    requires Monitor.GetCurrentRate(env.fredKey, server, parse) == Monitor.Rate(4.5)
    requires IsSet(env.sendGridKey) && IsSet(env.senderEmail)
    ensures Monitor.Cycle(Holds(App.ConfigRecord("a@b.com", 4.0, Monitor.GreaterOrEqual)), env, server, parse, reply)
         == Monitor.Notified(4.5, Sender.Accepted(reply))
  {
    SavedConfigDecidedByCondition("a@b.com", 4.0, Monitor.GreaterOrEqual, env, server, parse, reply, 4.5);
  }

  /** Rate 3.9 against the same config: no mail. */
  lemma RateBelowTargetDoesNotNotify(env: Monitor.Environment, server: Monitor.Request -> Monitor.HttpReply,
                                     parse: string -> Option<real>, reply: Sender.ApiReply)
    requires Monitor.GetCurrentRate(env.fredKey, server, parse) == Monitor.Rate(3.9)
    requires IsSet(env.sendGridKey) && IsSet(env.senderEmail)
    ensures Monitor.Cycle(Holds(App.ConfigRecord("a@b.com", 4.0, Monitor.GreaterOrEqual)), env, server, parse, reply)
         == Monitor.ConditionNotMet(3.9)
  {
    SavedConfigDecidedByCondition("a@b.com", 4.0, Monitor.GreaterOrEqual, env, server, parse, reply, 3.9);
  }

  /** The cycle run on the first scenario hands exactly one message, to the
      configured address, to SendGrid. */
  method RateAboveTargetSendsOneMail(env: Monitor.Environment, server: Monitor.Request -> Monitor.HttpReply,
                                     parse: string -> Option<real>, reply: Sender.ApiReply, body: string)
    returns (outbox: Sender.Outbox)
    requires Monitor.GetCurrentRate(env.fredKey, server, parse) == Monitor.Rate(4.5)
    requires IsSet(env.sendGridKey) && IsSet(env.senderEmail)
    ensures fresh(outbox) && |outbox.attempts| == 1
    ensures outbox.attempts[0].mail.recipient == JStr("a@b.com")
    ensures outbox.attempts[0].mail.subject == Monitor.NotificationSubject
  {
    outbox := new Sender.Outbox();
    var file := Holds(App.ConfigRecord("a@b.com", 4.0, Monitor.GreaterOrEqual));
    RateAboveTargetNotifies(env, server, parse, reply);
    var end := Monitor.RunCycle(file, env, server, parse, outbox, reply, body);
  }
}
