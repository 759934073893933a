/** States the pipeline reaches by safe steps, one concrete step at a time. */
module Reachability {
  import opened SmtPipeline
  import opened PipelineSafety

  const MAX_RETRY: nat := 3

  ghost predicate Reachable(w: World) {
    exists events ::
           ValidRun(START, events, MAX_RETRY) && SafeRun(START, events, MAX_RETRY) && Run(START, events, MAX_RETRY) == w
  }

  lemma {:induction false} RunSnoc(w: World, events: seq<Event>, e: Event)
    requires ValidRun(w, events, MAX_RETRY) && SafeRun(w, events, MAX_RETRY)
    requires Enabled(Run(w, events, MAX_RETRY), e) && Safe(Run(w, events, MAX_RETRY), e)
    ensures ValidRun(w, events + [e], MAX_RETRY) && SafeRun(w, events + [e], MAX_RETRY)
    ensures Run(w, events + [e], MAX_RETRY) == Apply(Run(w, events, MAX_RETRY), e, MAX_RETRY)
    decreases |events|
  {
    hide Apply, Enabled, Safe;
    if events == [] {
      assert [e][1..] == [];
      assert ValidRun(Apply(w, e, MAX_RETRY), [], MAX_RETRY);
      assert [] + [e] == [e];
    } else {
      assert (events + [e])[1..] == events[1..] + [e] && (events + [e])[0] == events[0];
      RunSnoc(Apply(w, events[0], MAX_RETRY), events[1..], e);
    }
  }

  ghost predicate Steps(w: World, e: Event, v: World) {
    Enabled(w, e) && Safe(w, e) && Apply(w, e, MAX_RETRY) == v
  }

  lemma StartReached()
    ensures Reachable(START)
  {
    assert ValidRun(START, [], MAX_RETRY) && SafeRun(START, [], MAX_RETRY) && Run(START, [], MAX_RETRY) == START;
  }

  lemma ReachesNext(w: World, e: Event, v: World)
    requires Reachable(w) && Steps(w, e, v)
    ensures Reachable(v)
  {
    var events :| ValidRun(START, events, MAX_RETRY) && SafeRun(START, events, MAX_RETRY)
      && Run(START, events, MAX_RETRY) == w;
    hide Enabled, Apply, Safe;
    RunSnoc(START, events, e);
  }
}
