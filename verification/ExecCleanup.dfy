/** The cleanups the agent keeps per process (agent/service.go), under a key made of task and exec ID. */
module ExecCleanup {
  import opened Outcomes
  import opened Text
  import opened Rfc4648

  // ----- keys -----

  predicate IsSeparator(c: char) {
    c == '.' || c == '_' || c == '-'
  }

  /** identifiers.Validate of containerd: at most 76 characters; runs of letters and digits with single
      separators between them. */
  predicate IsIdentifier(id: string) {
    && 1 <= |id| <= 76
    && (forall i :: 0 <= i < |id| ==> IsAlphanumeric(id[i]) || IsSeparator(id[i]))
    && IsAlphanumeric(id[0]) && IsAlphanumeric(id[|id| - 1])
    && (forall i :: 0 < i < |id| && IsSeparator(id[i]) ==> IsAlphanumeric(id[i - 1]))
  }

  type Pair = (string, string)

  /** The pairs TaskExecID accepts; the exec ID of a task's initial process is empty. */
  predicate Accepted(p: Pair) {
    IsIdentifier(p.0) && (p.1 == "" || IsIdentifier(p.1))
  }

  lemma AcceptedText(p: Pair)
    requires Accepted(p)
    ensures '/' !in p.0 && '/' !in p.1 && Ascii(p.0 + "/" + p.1)
  {
  }

  function TaskExecID(p: Pair): Result<string> {
    if !Accepted(p) then Err("invalid task and/or exec ID")
    else
      AcceptedText(p);
      Ok(Base64Url(ToBytes(p.0 + "/" + p.1)))
  }

  /** The text of a pair determines it, since neither ID has a slash. */
  lemma PairTextInjective(p: Pair, q: Pair)
    requires '/' !in p.0 && '/' !in q.0 && p.0 + "/" + p.1 == q.0 + "/" + q.1
    ensures p == q
  {
    var a, b := p.0 + "/" + p.1, q.0 + "/" + q.1;
    assert a == p.0 + ("/" + p.1) && b == q.0 + ("/" + q.1);
    IndexOfPrefix(p.0, '/', "/" + p.1);
    IndexOfPrefix(q.0, '/', "/" + q.1);
    assert a[..|p.0|] == p.0 && b[..|q.0|] == q.0;
    assert a[|p.0| + 1..] == p.1 && b[|q.0| + 1..] == q.1;
  }

  /** The key of a pair is the key of no other pair. */
  lemma TaskExecIDInjective(p: Pair, q: Pair)
    requires TaskExecID(p).Ok? && TaskExecID(p) == TaskExecID(q)
    ensures p == q
  {
    hide Base64Url, IsIdentifier;
    AcceptedText(p);
    AcceptedText(q);
    var a, b := p.0 + "/" + p.1, q.0 + "/" + q.1;
    Base64UrlInjective(ToBytes(a), ToBytes(b));
    ToBytesInjective(a, b);
    PairTextInjective(p, q);
  }

  // ----- the service -----

  /** A registered cleanup function. */
  type Cleanup = nat

  function Reverse<T>(s: seq<T>): (r: seq<T>)
    ensures |r| == |s|
    ensures forall i :: 0 <= i < |s| ==> r[i] == s[|s| - 1 - i]
  {
    if s == [] then [] else Reverse(s[1..]) + [s[0]]
  }

  type Cleanups = map<string, seq<Cleanup>>

  function Registered(m: Cleanups, key: string): seq<Cleanup> {
    if key in m then m[key] else []
  }

  class TaskService {
    var execCleanups: Cleanups
    var executed: seq<Cleanup>     // every cleanup that was called, in order

    constructor ()
      ensures execCleanups == map[] && executed == []
    {
      execCleanups := map[];
      executed := [];
    }

    /** The registration of any pair that has this key. */
    method AddCleanup(taskExecID: string, cleanup: Cleanup)
      modifies this`execCleanups
      ensures forall pair, log :: TaskExecID(pair) == Ok(taskExecID) ==>
                Step(old(execCleanups), log, Add(pair, cleanup)) == (execCleanups, log)
    {
      execCleanups :=
          execCleanups[taskExecID := (if taskExecID in execCleanups then execCleanups[taskExecID] else []) + [cleanup]];
    }

    /** Calls what is registered, last first, even if some fail, and forgets it; `errs` are those that failed. This is
        the cleanup of any pair that has this key. */
    method DoCleanup(taskExecID: string, fails: Cleanup -> bool) returns (errs: seq<Cleanup>)
      modifies this
      ensures old(executed) <= executed
      ensures executed[|old(executed)|..] == Reverse(Registered(old(execCleanups), taskExecID))
      ensures forall pair, log :: TaskExecID(pair) == Ok(taskExecID) ==>
                Step(old(execCleanups), log, Do(pair)) == (execCleanups, log + Calls(pair, executed[|old(executed)|..]))
      ensures forall c :: c in errs <==> c in Registered(old(execCleanups), taskExecID) && fails(c)
    {
      var todo := if taskExecID in execCleanups then execCleanups[taskExecID] else [];
      errs := [];
      var i := |todo| - 1;
      while i >= 0
        invariant -1 <= i < |todo|
        invariant execCleanups == old(execCleanups)
        invariant executed == old(executed) + Reverse(todo)[..|todo| - 1 - i]
        invariant forall c :: c in errs <==> c in todo[i + 1..] && fails(c)
      {
        executed := executed + [todo[i]];
        assert Reverse(todo)[..|todo| - i] == Reverse(todo)[..|todo| - 1 - i] + [todo[i]];
        assert todo[i..] == [todo[i]] + todo[i + 1..];
        if fails(todo[i]) {
          errs := errs + [todo[i]];
        }
        i := i - 1;
      }
      assert Reverse(todo)[..|todo|] == Reverse(todo);
      assert executed[|old(executed)|..] == Reverse(todo);
      execCleanups := execCleanups - {taskExecID};
    }
  }

  // ----- runs -----

  /** Create, Exec and Delete requests of all clients, as the lock orders them: registrations and cleanups. */
  datatype Event = Add(pair: Pair, cleanup: Cleanup) | Do(pair: Pair)

  /** Which request's cleanup called which function. */
  datatype Call = Call(pair: Pair, cleanup: Cleanup)

  function Calls(pair: Pair, cleanups: seq<Cleanup>): (r: seq<Call>)
    ensures |r| == |cleanups| && forall i :: 0 <= i < |r| ==> r[i] == Call(pair, cleanups[i])
  {
    seq(|cleanups|, i requires 0 <= i < |cleanups| => Call(pair, cleanups[i]))
  }

  /** The service: the map under string keys and the calls made so far. A pair that is refused changes nothing. */
  function Step(m: Cleanups, log: seq<Call>, e: Event): (Cleanups, seq<Call>) {
    match TaskExecID(e.pair)
    case Err(_) => (m, log)
    case Ok(key) =>
      match e
      case Add(_, c) => (m[key := Registered(m, key) + [c]], log)
      case Do(p) => (m - {key}, log + Calls(p, Reverse(Registered(m, key))))
  }

  function Run(events: seq<Event>): (Cleanups, seq<Call>) {
    if events == [] then (map[], [])
    else
      var (m, log) := Run(events[..|events| - 1]);
      Step(m, log, events[|events| - 1])
  }

  /** What a pair has registered since its last cleanup: a reference that knows nothing of keys. */
  function Pending(events: seq<Event>, p: Pair): seq<Cleanup> {
    if events == [] || !Accepted(p) then []
    else
      var before := Pending(events[..|events| - 1], p);
      match events[|events| - 1]
      case Add(q, c) => if q == p then before + [c] else before
      case Do(q) => if q == p then [] else before
  }

  /** The calls that should be made: each cleanup request unwinds what its own pair has pending. */
  function Expected(events: seq<Event>): seq<Call> {
    if events == [] then []
    else
      var init, last := events[..|events| - 1], events[|events| - 1];
      if last.Do? then Expected(init) + Calls(last.pair, Reverse(Pending(init, last.pair))) else Expected(init)
  }

  /** Over any interleaved run the service makes exactly the expected calls, and keeps under each key exactly what
      the key's pair has pending. */
  lemma {:induction false} ServiceMeetsReference(events: seq<Event>)
    ensures Run(events).1 == Expected(events)
    ensures forall p :: Accepted(p) ==> Registered(Run(events).0, TaskExecID(p).value) == Pending(events, p)
    decreases |events|
  {
    if events != [] {
      var init, last := events[..|events| - 1], events[|events| - 1];
      ServiceMeetsReference(init);
      hide TaskExecID, Accepted;
      StepMeetsReference(Run(init).0, Run(init).1, init, last);
    }
  }

  lemma StepMeetsReference(m: Cleanups, log: seq<Call>, init: seq<Event>, e: Event)
    requires log == Expected(init)
    requires forall p :: Accepted(p) ==> Registered(m, TaskExecID(p).value) == Pending(init, p)
    ensures var events := init + [e];
            var (m', log') := Step(m, log, e);
            && log' == Expected(events)
            && forall p :: Accepted(p) ==> Registered(m', TaskExecID(p).value) == Pending(events, p)
  {
    hide Accepted, Expected, Pending, Registered, Step;
    CallsMeetReference(m, log, init, e);
    var m' := Step(m, log, e).0;
    forall p | Accepted(p) ensures Registered(m', TaskExecID(p).value) == Pending(init + [e], p) {
      PendingMeetsReference(m, log, init, e, p);
    }
  }

  lemma CallsMeetReference(m: Cleanups, log: seq<Call>, init: seq<Event>, e: Event)
    requires log == Expected(init)
    requires Accepted(e.pair) ==> Registered(m, TaskExecID(e.pair).value) == Pending(init, e.pair)
    ensures Step(m, log, e).1 == Expected(init + [e])
  {
    hide Accepted;
    KeyIffAccepted(e.pair);
    hide TaskExecID;
    assert (init + [e])[..|init|] == init;
    if e.Do? && !Accepted(e.pair) {
      assert Calls(e.pair, Reverse(Pending(init, e.pair))) == [];
    }
  }

  lemma PendingMeetsReference(m: Cleanups, log: seq<Call>, init: seq<Event>, e: Event, p: Pair)
    requires Accepted(p) && Registered(m, TaskExecID(p).value) == Pending(init, p)
    ensures Registered(Step(m, log, e).0, TaskExecID(p).value) == Pending(init + [e], p)
  {
    KeyIffAccepted(e.pair);
    hide TaskExecID, Accepted, Calls, Reverse;
    assert (init + [e])[..|init|] == init;
    if p != e.pair && Accepted(e.pair) {
      KeysDiffer(p, e.pair);
    }
  }

  lemma KeyIffAccepted(p: Pair)
    ensures TaskExecID(p).Ok? <==> Accepted(p)
  {
  }

  lemma KeysDiffer(p: Pair, q: Pair)
    requires p != q && Accepted(p) && Accepted(q)
    ensures TaskExecID(p).value != TaskExecID(q).value
  {
    if TaskExecID(p).value == TaskExecID(q).value {
      TaskExecIDInjective(p, q);
    }
  }

  /** No cleanup is registered twice. */
  ghost predicate UniqueAdds(events: seq<Event>) {
    forall i, j :: 0 <= i < j < |events| && events[i].Add? && events[j].Add? ==> events[i].cleanup != events[j].cleanup
  }

  ghost predicate RegisteredFor(events: seq<Event>, p: Pair, c: Cleanup) {
    exists i :: 0 <= i < |events| && events[i] == Add(p, c)
  }

  /** What a pair has pending it registered itself, each once, and it has not been called. */
  ghost predicate PendingOwn(events: seq<Event>, p: Pair) {
    && (forall c :: c in Pending(events, p) ==> RegisteredFor(events, p, c))
    && Distinct(Pending(events, p))
    && (forall i :: 0 <= i < |Expected(events)| ==> Expected(events)[i].cleanup !in Pending(events, p))
  }

  /** Every call is made for the pair that registered the cleanup, and no cleanup is called twice. */
  ghost predicate CallsOwn(events: seq<Event>, made: seq<Call>) {
    && (forall i :: 0 <= i < |made| ==> RegisteredFor(events, made[i].pair, made[i].cleanup))
    && (forall i, j :: 0 <= i < j < |made| ==> made[i].cleanup != made[j].cleanup)
  }

  lemma RegisteredGrows(events: seq<Event>, p: Pair, c: Cleanup)
    requires events != [] && RegisteredFor(events[..|events| - 1], p, c)
    ensures RegisteredFor(events, p, c)
  {
  }

  /** A registration names its pair. */
  lemma RegisteredOnce(events: seq<Event>, p: Pair, q: Pair, c: Cleanup)
    requires UniqueAdds(events) && RegisteredFor(events, p, c) && RegisteredFor(events, q, c)
    ensures p == q
  {
  }

  lemma FreshAdd(init: seq<Event>, p: Pair, c: Cleanup)
    requires UniqueAdds(init + [Add(p, c)])
    ensures forall q :: !RegisteredFor(init, q, c)
  {
    var events := init + [Add(p, c)];
    forall q ensures !RegisteredFor(init, q, c) {
      forall i | 0 <= i < |init| ensures init[i] != Add(q, c) {
        assert init[i] == events[i] && events[|init|] == Add(p, c);
      }
    }
  }

  lemma {:induction false} ExpectedAreOwn(events: seq<Event>)
    requires UniqueAdds(events)
    ensures CallsOwn(events, Expected(events)) && forall p :: PendingOwn(events, p)
    decreases |events|
  {
    if events == [] {
    } else {
      var init, last := events[..|events| - 1], events[|events| - 1];
      ExpectedAreOwn(init);
      if last.Do? {
        DoKeepsOwn(events);
      } else {
        AddKeepsOwn(events);
      }
    }
  }

  /** Over any run in which each cleanup is registered once, the service makes every call for the pair that registered
      the cleanup, and calls no cleanup twice. */
  lemma CallsAreOwn(events: seq<Event>)
    requires UniqueAdds(events)
    ensures CallsOwn(events, Run(events).1)
  {
    hide Run, CallsOwn, PendingOwn;
    ServiceMeetsReference(events);
    ExpectedAreOwn(events);
  }

  lemma AddKeepsOwn(events: seq<Event>)
    requires UniqueAdds(events) && events != [] && events[|events| - 1].Add?
    requires var init := events[..|events| - 1]; CallsOwn(init, Expected(init)) && forall p :: PendingOwn(init, p)
    ensures CallsOwn(events, Expected(events)) && forall p :: PendingOwn(events, p)
  {
    var init, last := events[..|events| - 1], events[|events| - 1];
    assert events == init + [last];
    FreshAdd(init, last.pair, last.cleanup);
    assert Expected(events) == Expected(init);
    forall i | 0 <= i < |Expected(events)|
        ensures RegisteredFor(events, Expected(events)[i].pair, Expected(events)[i].cleanup) {
      RegisteredGrows(events, Expected(init)[i].pair, Expected(init)[i].cleanup);
    }
    forall p ensures PendingOwn(events, p) {
      assert PendingOwn(init, p);
      hide Accepted;
      forall c | c in Pending(events, p) ensures RegisteredFor(events, p, c) {
        if c in Pending(init, p) {
          RegisteredGrows(events, p, c);
        } else {
          assert events[|events| - 1] == Add(p, c);
        }
      }
      assert last.cleanup !in Pending(init, p);
      forall i | 0 <= i < |Expected(events)| ensures Expected(events)[i].cleanup !in Pending(events, p) {
        assert RegisteredFor(init, Expected(init)[i].pair, Expected(init)[i].cleanup);
      }
    }
  }

  lemma DoKeepsOwn(events: seq<Event>)
    requires UniqueAdds(events) && events != [] && events[|events| - 1].Do?
    requires var init := events[..|events| - 1]; CallsOwn(init, Expected(init)) && forall p :: PendingOwn(init, p)
    ensures CallsOwn(events, Expected(events)) && forall p :: PendingOwn(events, p)
  {
    var init, q := events[..|events| - 1], events[|events| - 1].pair;
    var pending := Pending(init, q);
    assert PendingOwn(init, q);
    var made, more := Expected(init), Calls(q, Reverse(pending));
    assert Expected(events) == made + more;
    forall i | 0 <= i < |more| ensures more[i].cleanup in pending {
      assert Reverse(pending)[i] == pending[|pending| - 1 - i];
    }
    forall i | 0 <= i < |Expected(events)|
        ensures RegisteredFor(events, Expected(events)[i].pair, Expected(events)[i].cleanup) {
      RegisteredGrows(events, Expected(events)[i].pair, Expected(events)[i].cleanup);
    }
    DoKeepsDistinct(events);
    forall p ensures PendingOwn(events, p) {
      DoKeepsPending(events, p);
    }
  }

  lemma DoKeepsDistinct(events: seq<Event>)
    requires UniqueAdds(events) && events != [] && events[|events| - 1].Do?
    requires var init := events[..|events| - 1];
             CallsOwn(init, Expected(init)) && PendingOwn(init, events[|events| - 1].pair)
    ensures forall i, j :: 0 <= i < j < |Expected(events)| ==>
        Expected(events)[i].cleanup != Expected(events)[j].cleanup
  {
  }

  lemma DoKeepsPending(events: seq<Event>, p: Pair)
    requires UniqueAdds(events) && events != [] && events[|events| - 1].Do?
    requires var init := events[..|events| - 1]; PendingOwn(init, p) && PendingOwn(init, events[|events| - 1].pair)
    ensures PendingOwn(events, p)
  {
    hide Accepted;
    var init, q := events[..|events| - 1], events[|events| - 1].pair;
    var pending := Pending(init, q);
    if p != q {
      forall c | c in Pending(events, p) ensures RegisteredFor(events, p, c) {
        RegisteredGrows(events, p, c);
      }
      forall i | 0 <= i < |Expected(events)| ensures Expected(events)[i].cleanup !in Pending(events, p) {
        if i >= |Expected(init)| {
          var c := Expected(events)[i].cleanup;
          assert c == Reverse(pending)[i - |Expected(init)|];
          assert c in pending;
          if c in Pending(init, p) {
            RegisteredGrows(events, p, c);
            RegisteredGrows(events, q, c);
            RegisteredOnce(events, p, q, c);
          }
        }
      }
    }
  }
}
