/**
 * The contact form (components/ContactForm.tsx): a four-state status machine
 * around one POST to a third-party form collector, whose result is an input.
 */
module ContactForm {
  import opened Wrappers

  datatype Status = Idle | Sending | Success | Error

  /** The three `required` fields, in form order. */
  datatype FormFields = FormFields(name: string, email: string, message: string)

  /** How the POST ended: a 2xx response, another response, or a thrown error. */
  datatype PostOutcome = Ok | NotOk | Threw

  /** What can happen: a submit of the form's fields, the request settling, or "Back to Shell" on the success screen. */
  datatype Event = Submit(fields: FormFields) | Settle(outcome: PostOutcome) | BackToShell

  const Initial: Status := Idle

  /** The form (and its submit button) is rendered on every screen but the success one. */
  predicate FormShown(s: Status) {
    s != Success
  }

  /** The submit button is disabled while a request is in flight. */
  predicate SubmitEnabled(s: Status) {
    s != Sending
  }

  /** The browser refuses to submit a form with an empty `required` field. */
  predicate Filled(f: FormFields) {
    f.name != [] && f.email != [] && f.message != []
  }

  /** `handleSubmit` and the success screen's button. */
  function Step(s: Status, e: Event): (r: Status)
    ensures e.Submit? && FormShown(s) && SubmitEnabled(s) && Filled(e.fields) ==> r == Sending
    ensures e.Settle? && s == Sending ==> (r == Success <==> e.outcome == Ok)
    ensures e.Settle? && s == Sending ==> (r == Error <==> e.outcome != Ok)
    ensures r == Sending ==> s == Sending || e.Submit?
    ensures s == Success ==> r == Success || (e == BackToShell && r == Idle)
    ensures s == Sending && !e.Settle? ==> r == Sending
    ensures r != s ==>
              || (e.Submit? && FormShown(s) && SubmitEnabled(s) && Filled(e.fields))
              || (e.Settle? && s == Sending)
              || (e == BackToShell && s == Success)
  {
    match e
    case Submit(f) => if FormShown(s) && SubmitEnabled(s) && Filled(f) then Sending else s
    case Settle(o) => if s == Sending then (if o == Ok then Success else Error) else s
    case BackToShell => if s == Success then Idle else s
  }

  /** The entries of the posted JSON object, `Object.fromEntries` of the form data. */
  function Body(f: FormFields): (entries: seq<(string, string)>)
    ensures |entries| == 3
    ensures entries[0].0 == "name" && entries[1].0 == "email" && entries[2].0 == "message"
  {
    [("name", f.name), ("email", f.email), ("message", f.message)]
  }

  /** The value under `key`, first match. */
  function Lookup(entries: seq<(string, string)>, key: string): Option<string> {
    if entries == [] then None
    else if entries[0].0 == key then Some(entries[0].1)
    else Lookup(entries[1..], key)
  }

  /** The posted object gives back each field under its own name. */
  lemma BodyRoundTrip(f: FormFields)
    ensures Lookup(Body(f), "name") == Some(f.name)
    ensures Lookup(Body(f), "email") == Some(f.email)
    ensures Lookup(Body(f), "message") == Some(f.message)
  {
    assert "email" != "name" by { assert |"email"| != |"name"|; }
    assert "message" != "name" by { assert |"message"| != |"name"|; }
    assert "message" != "email" by { assert "message"[0] != "email"[0]; }
    var b := Body(f);
    assert b[1..][1..] == [("message", f.message)];
    assert Lookup(b[1..][1..], "message") == Some(f.message);
  }

  /** The status after a sequence of events. */
  function Run(s: Status, events: seq<Event>): Status
    decreases |events|
  {
    if events == [] then s else Run(Step(s, events[0]), events[1..])
  }

  /** The success screen is only ever reached through a request that settled with a 2xx response. */
  lemma {:induction false} SuccessNeedsOkResponse(s: Status, events: seq<Event>)
    requires s != Success && Run(s, events) == Success
    ensures Settle(Ok) in events
    decreases |events|
  {
    if events != [] {
      var next := Step(s, events[0]);
      if next == Success {
        assert events[0] == Settle(Ok);
      } else {
        SuccessNeedsOkResponse(next, events[1..]);
        assert Settle(Ok) in events[1..];
      }
    }
  }

  /** One submission from a fresh form: the request is sent, and the screen shows the result. */
  lemma SubmitThenSettle(f: FormFields, o: PostOutcome)
    requires Filled(f)
    ensures Step(Step(Initial, Submit(f)), Settle(o)) == if o == Ok then Success else Error
  {
  }
}
