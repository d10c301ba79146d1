/** The theorem about runs of one process: there is an order of exactly the requests made, such that at every moment
    of the run the store and every answer given are those of serving a prefix of that order, one request after the
    other. */
module SerialTheorem {
  import opened Text
  import opened GameStore
  import opened Service
  import opened SaveRestore
  import opened Protocol
  import opened ProtocolSafety
  import opened ProtocolTheorems
  import opened ProtocolEnds
  import opened SerialMatch
  import opened SerialRuns
  import opened SerialMoves

  // ----- which step made which request -----

  predicate Arrives(step: Step, r: nat) { step.Arrive? && step.r == r }

  predicate IsOutside(step: Step) { step.Open? || step.DropSave? }

  /** The request a step makes. */
  function AsksFor(step: Step): Option<Request> {
    match step
    case Open(user, story, _, _) => Some(NewGame(user, story))
    case DropSave(user, game, save) => Some(On(user, game, DeleteSaveOp(save)))
    case Arrive(_, _, user, game, op) => Some(On(user, game, op))
    case _ => None
  }

  /** The step at which the request now known as `r` arrived: the last of that name. */
  function ArrivedAt(steps: seq<Step>, r: nat): nat {
    if steps == [] then 0
    else if Arrives(steps[|steps| - 1], r) then |steps| - 1
    else ArrivedAt(steps[..|steps| - 1], r)
  }

  lemma ArrivedSnoc(steps: seq<Step>, step: Step, r: nat)
    ensures ArrivedAt(steps + [step], r) == if Arrives(step, r) then |steps| else ArrivedAt(steps, r)
  {
    assert (steps + [step])[..|steps|] == steps;
  }

  ghost predicate PlacedOk(steps: seq<Step>, r: nat, q: Req) {
    var j := ArrivedAt(steps, r);
    j < |steps| && Arrives(steps[j], r) && AsksFor(steps[j]) == Some(AskOf(q))
  }

  ghost predicate Placed(steps: seq<Step>, s: State) { forall r | r in s.reqs :: PlacedOk(steps, r, s.reqs[r]) }

  lemma StepperKeepsAsk(w: World, s: State, step: Step, x: nat)
    requires Enabled(w, s, step) && StepOf(step, x) && x in Next(w, s, step).reqs
    ensures x in s.reqs && SameAsk(s.reqs[x], Next(w, s, step).reqs[x])
  {
    if step.LoadIt? {
      LoadKeepsAsk(w, s, x);
    } else if step.Work? {
      WorkKeepsAsk(w, s, x, step.seed, step.now);
    } else {
      MoveKeepsAsk(w, s, step, x);
    }
  }

  lemma LoadKeepsAsk(w: World, s: State, x: nat)
    requires x in s.reqs
    ensures x in LoadStep(w, s, x).reqs && SameAsk(s.reqs[x], LoadStep(w, s, x).reqs[x])
  {
  }

  lemma WorkKeepsAsk(w: World, s: State, x: nat, seed: nat, now: int)
    requires x in s.reqs && s.reqs[x].pc.AtWork?
    ensures x in WorkStep(w, s, x, seed, now).reqs && SameAsk(s.reqs[x], WorkStep(w, s, x, seed, now).reqs[x])
  {
  }

  lemma MoveKeepsAsk(w: World, s: State, step: Step, x: nat)
    requires Enabled(w, s, step) && StepOf(step, x) && !step.LoadIt? && !step.Work? && x in Next(w, s, step).reqs
    ensures x in s.reqs && SameAsk(s.reqs[x], Next(w, s, step).reqs[x])
  {
  }

  lemma KeepsAsk(w: World, s: State, step: Step, x: nat)
    requires Enabled(w, s, step) && x in Next(w, s, step).reqs && !Arrives(step, x)
    ensures x in s.reqs && SameAsk(s.reqs[x], Next(w, s, step).reqs[x])
  {
    NobodyElseArrives(w, s, step, x);
    if StepOf(step, x) { StepperKeepsAsk(w, s, step, x); } else { OthersUnmoved(w, s, step, x); }
  }

  lemma StepKeepsPlaced(w: World, s: State, step: Step, steps: seq<Step>)
    requires Placed(steps, s) && Enabled(w, s, step)
    ensures Placed(steps + [step], Next(w, s, step))
  {
    var t := Next(w, s, step);
    forall x | x in t.reqs ensures PlacedOk(steps + [step], x, t.reqs[x]) {
      ArrivedSnoc(steps, step, x);
      if !Arrives(step, x) {
        KeepsAsk(w, s, step, x);
        assert PlacedOk(steps, x, s.reqs[x]);
      }
    }
  }

  // ----- the order, and who is served where -----

  /** `who` names for each place of the order the step that made the request served there: no step twice. */
  ghost predicate Listed(steps: seq<Step>, xs: seq<Served>, who: seq<nat>) {
    && |who| == |xs|
    && (forall i | 0 <= i < |xs| :: who[i] < |steps| && AsksFor(steps[who[i]]) == Some(xs[i].req))
    && (forall i, j | 0 <= i < j < |who| :: who[i] != who[j])
  }

  /** The request made by step `j` is served in the order, and this is its answer there. */
  ghost predicate AnsweredAt(w: World, xs: seq<Served>, who: seq<nat>, j: nat, answer: Reply) {
    exists i: nat | i < |xs| && i < |who| ::
      who[i] == j && Serve(w, ServeAll(w, EMPTY, xs[..i]), xs[i].req, xs[i].seed, xs[i].now).1 == answer
  }

  /** A request that has been decided has its own place in the order and is answered as there; one that has not has
      none. */
  ghost predicate SettledOk(w: World, steps: seq<Step>, xs: seq<Served>, who: seq<nat>, r: nat, q: Req) {
    match Decided(q)
    case None => ArrivedAt(steps, r) !in who
    case Some(answer) => AnsweredAt(w, xs, who, ArrivedAt(steps, r), answer)
  }

  ghost predicate Settled(w: World, steps: seq<Step>, s: State, xs: seq<Served>, who: seq<nat>) {
    forall r | r in s.reqs :: SettledOk(w, steps, xs, who, r, s.reqs[r])
  }

  /** So does every new game and every save deleted. */
  ghost predicate OutsideOk(w: World, steps: seq<Step>, xs: seq<Served>, who: seq<nat>, j: nat)
    requires j < |steps|
  {
    IsOutside(steps[j]) ==>
      && Possible(w, START, steps[..j]) && Enabled(w, After(w, START, steps[..j]), steps[j])
      && AnsweredAt(w, xs, who, j, OutsideAnswer(w, After(w, START, steps[..j]), steps[j]))
  }

  /** And every request made is in the order, or present and still undecided. */
  ghost predicate Waiting(steps: seq<Step>, s: State, j: nat) {
    exists r :: r in s.reqs && Decided(s.reqs[r]).None? && ArrivedAt(steps, r) == j
  }

  ghost predicate Complete(steps: seq<Step>, s: State, who: seq<nat>) {
    forall j | 0 <= j < |steps| && AsksFor(steps[j]).Some? :: j in who || Waiting(steps, s, j)
  }

  /** The store, the answers given and the requests made so far are those of serving `xs`. */
  ghost predicate SerialState(w: World, steps: seq<Step>, s: State, xs: seq<Served>, who: seq<nat>) {
    && Matches(s, ServeAll(w, EMPTY, xs))
    && Placed(steps, s) && Listed(steps, xs, who)
    && Settled(w, steps, s, xs, who)
    && (forall j | 0 <= j < |steps| :: OutsideOk(w, steps, xs, who, j))
    && Complete(steps, s, who)
  }

  ghost predicate Serialised(w: World, steps: seq<Step>, xs: seq<Served>, who: seq<nat>) {
    Possible(w, START, steps) && SerialState(w, steps, After(w, START, steps), xs, who)
  }

  // ----- longer orders -----

  lemma {:induction false} ServeAllSplits(w: World, s: Store, xs: seq<Served>, ys: seq<Served>)
    ensures ServeAll(w, s, xs + ys) == ServeAll(w, ServeAll(w, s, xs), ys)
    decreases |xs|
  {
    if xs == [] {
      assert xs + ys == ys;
    } else {
      assert (xs + ys)[1..] == xs[1..] + ys;
      ServeAllSplits(w, Serve(w, s, xs[0].req, xs[0].seed, xs[0].now).0, xs[1..], ys);
    }
  }

  lemma StillAnswered(w: World, xs: seq<Served>, who: seq<nat>, ys: seq<Served>, more: seq<nat>, j: nat, answer: Reply)
    requires |who| == |xs| && AnsweredAt(w, xs, who, j, answer)
    ensures AnsweredAt(w, xs + ys, who + more, j, answer)
  {
    var i: nat :| i < |xs| && i < |who| && who[i] == j
                  && Serve(w, ServeAll(w, EMPTY, xs[..i]), xs[i].req, xs[i].seed, xs[i].now).1 == answer;
    assert (xs + ys)[..i] == xs[..i] && (xs + ys)[i] == xs[i] && (who + more)[i] == j;
  }

  lemma NowAnswered(w: World, xs: seq<Served>, who: seq<nat>, x: Served, j: nat, answer: Reply)
    requires |who| == |xs| && Serve(w, ServeAll(w, EMPTY, xs), x.req, x.seed, x.now).1 == answer
    ensures AnsweredAt(w, xs + [x], who + [j], j, answer)
  {
    var i := |xs|;
    assert (xs + [x])[..i] == xs && (xs + [x])[i] == x && (who + [j])[i] == j;
  }

  lemma OutsideStillOk(w: World, steps: seq<Step>, xs: seq<Served>, who: seq<nat>, step: Step, ys: seq<Served>,
                       more: seq<nat>, j: nat)
    requires |who| == |xs| && j < |steps| && OutsideOk(w, steps, xs, who, j)
    ensures OutsideOk(w, steps + [step], xs + ys, who + more, j)
  {
    assert (steps + [step])[..j] == steps[..j];
    if IsOutside(steps[j]) {
      StillAnswered(w, xs, who, ys, more, j, OutsideAnswer(w, After(w, START, steps[..j]), steps[j]));
    }
  }

  lemma ListedStill(steps: seq<Step>, xs: seq<Served>, who: seq<nat>, step: Step)
    requires Listed(steps, xs, who)
    ensures Listed(steps + [step], xs, who)
  {
  }

  lemma ListedMore(steps: seq<Step>, xs: seq<Served>, who: seq<nat>, step: Step, x: Served, j: nat)
    requires Listed(steps, xs, who) && j !in who
    requires j <= |steps| && AsksFor((steps + [step])[j]) == Some(x.req)
    ensures Listed(steps + [step], xs + [x], who + [j])
  {
    var all := who + [j];
    forall a, b | 0 <= a < b < |all| ensures all[a] != all[b] {
      if b == |who| { assert who[a] in who; }
    }
  }

  lemma StillSettled(w: World, steps: seq<Step>, step: Step, xs: seq<Served>, who: seq<nat>, ys: seq<Served>,
                     more: seq<nat>, r: nat, p: Req, q: Req)
    requires |who| == |xs| && SettledOk(w, steps, xs, who, r, p) && Decided(p) == Decided(q)
    requires !Arrives(step, r) && ArrivedAt(steps, r) !in more
    ensures SettledOk(w, steps + [step], xs + ys, who + more, r, q)
  {
    ArrivedSnoc(steps, step, r);
    if Decided(p).Some? { StillAnswered(w, xs, who, ys, more, ArrivedAt(steps, r), Decided(p).value); }
  }

  lemma DistinctArrivals(steps: seq<Step>, s: State, a: nat, b: nat)
    requires Placed(steps, s) && a in s.reqs && b in s.reqs && a != b
    ensures ArrivedAt(steps, a) != ArrivedAt(steps, b)
  {
    assert PlacedOk(steps, a, s.reqs[a]) && PlacedOk(steps, b, s.reqs[b]);
  }

  // ----- a step of a request -----

  /** The place of the stepping request, when it is decided at this step. */
  function Places(steps: seq<Step>, ys: seq<Served>, r: nat): seq<nat> {
    if ys == [] then [] else [ArrivedAt(steps, r)]
  }

  lemma StepperSettles(w: World, steps: seq<Step>, s: State, step: Step, xs: seq<Served>, who: seq<nat>,
                       ys: seq<Served>)
    requires |who| == |xs| && OfSomeRequest(step) && Enabled(w, s, step) && step.r in s.reqs
    requires SettledOk(w, steps, xs, who, step.r, s.reqs[step.r])
    requires Matched(w, s, Next(w, s, step), ServeAll(w, EMPTY, xs), ys, step.r) && step.r in Next(w, s, step).reqs
    ensures SettledOk(w, steps + [step], xs + ys, who + Places(steps, ys, step.r),
                      step.r, Next(w, s, step).reqs[step.r])
  {
    var r, q := step.r, Next(w, s, step).reqs[step.r];
    if ys == [] {
      StillSettled(w, steps, step, xs, who, ys, [], r, s.reqs[r], q);
    } else {
      assert ys == [ys[0]];
      ArrivedSnoc(steps, step, r);
      NowAnswered(w, xs, who, ys[0], ArrivedAt(steps, r), Decided(q).value);
    }
  }

  lemma RequestSettles(w: World, steps: seq<Step>, s: State, step: Step, xs: seq<Served>, who: seq<nat>,
                       ys: seq<Served>)
    requires |who| == |xs| && Placed(steps, s) && Settled(w, steps, s, xs, who)
    requires OfSomeRequest(step) && Enabled(w, s, step) && step.r in s.reqs
    requires Matched(w, s, Next(w, s, step), ServeAll(w, EMPTY, xs), ys, step.r)
    ensures Settled(w, steps + [step], Next(w, s, step), xs + ys, who + Places(steps, ys, step.r))
  {
    var t, more := Next(w, s, step), Places(steps, ys, step.r);
    forall x | x in t.reqs ensures SettledOk(w, steps + [step], xs + ys, who + more, x, t.reqs[x]) {
      NobodyElseArrives(w, s, step, x);
      assert SettledOk(w, steps, xs, who, x, s.reqs[x]);
      if x == step.r {
        StepperSettles(w, steps, s, step, xs, who, ys);
      } else {
        OthersUnmoved(w, s, step, x);
        DistinctArrivals(steps, s, x, step.r);
        StillSettled(w, steps, step, xs, who, ys, more, x, s.reqs[x], t.reqs[x]);
      }
    }
  }

  lemma RequestCompletes(w: World, steps: seq<Step>, s: State, step: Step, a: Store, who: seq<nat>, ys: seq<Served>)
    requires Complete(steps, s, who) && OfSomeRequest(step) && Enabled(w, s, step) && step.r in s.reqs
    requires Matched(w, s, Next(w, s, step), a, ys, step.r)
    ensures Complete(steps + [step], Next(w, s, step), who + Places(steps, ys, step.r))
  {
    var t, r, all := Next(w, s, step), step.r, steps + [step];
    forall j | 0 <= j < |all| && AsksFor(all[j]).Some?
      ensures j in who + Places(steps, ys, r) || Waiting(all, t, j)
    {
      assert all[j] == steps[j];
      if j !in who {
        var x :| x in s.reqs && Decided(s.reqs[x]).None? && ArrivedAt(steps, x) == j;
        ArrivedSnoc(steps, step, x);
        if x != r { OthersUnmoved(w, s, step, x); }
        assert (x == r && ys != []) || (x in t.reqs && Decided(t.reqs[x]).None?);
      }
    }
  }

  lemma RequestExtends(w: World, steps: seq<Step>, s: State, step: Step, xs: seq<Served>, who: seq<nat>,
                       ys: seq<Served>)
    requires SerialState(w, steps, s, xs, who) && OfSomeRequest(step) && Enabled(w, s, step) && step.r in s.reqs
    requires Matched(w, s, Next(w, s, step), ServeAll(w, EMPTY, xs), ys, step.r)
    ensures SerialState(w, steps + [step], Next(w, s, step), xs + ys, who + Places(steps, ys, step.r))
  {
    var more := Places(steps, ys, step.r);
    ServeAllSplits(w, EMPTY, xs, ys);
    StepKeepsPlaced(w, s, step, steps);
    RequestLists(w, steps, s, step, xs, who, ys);
    RequestSettles(w, steps, s, step, xs, who, ys);
    RequestCompletes(w, steps, s, step, ServeAll(w, EMPTY, xs), who, ys);
    AllOutsideStill(w, steps, step, xs, who, ys, more);
  }

  lemma RequestLists(w: World, steps: seq<Step>, s: State, step: Step, xs: seq<Served>, who: seq<nat>, ys: seq<Served>)
    requires Listed(steps, xs, who) && Placed(steps, s) && Settled(w, steps, s, xs, who)
    requires OfSomeRequest(step) && Enabled(w, s, step) && step.r in s.reqs
    requires Matched(w, s, Next(w, s, step), ServeAll(w, EMPTY, xs), ys, step.r)
    ensures Listed(steps + [step], xs + ys, who + Places(steps, ys, step.r))
  {
    var r := step.r;
    if ys == [] {
      ListedStill(steps, xs, who, step);
      assert xs + ys == xs && who + Places(steps, ys, r) == who;
    } else {
      assert PlacedOk(steps, r, s.reqs[r]) && SettledOk(w, steps, xs, who, r, s.reqs[r]);
      assert ys == [ys[0]];
      ListedMore(steps, xs, who, step, ys[0], ArrivedAt(steps, r));
    }
  }

  lemma AllOutsideStill(w: World, steps: seq<Step>, step: Step, xs: seq<Served>, who: seq<nat>, ys: seq<Served>,
                        more: seq<nat>)
    requires |who| == |xs| && !IsOutside(step) && forall j | 0 <= j < |steps| :: OutsideOk(w, steps, xs, who, j)
    ensures forall j | 0 <= j < |steps + [step]| :: OutsideOk(w, steps + [step], xs + ys, who + more, j)
  {
    forall j | 0 <= j < |steps + [step]| ensures OutsideOk(w, steps + [step], xs + ys, who + more, j) {
      if j < |steps| { OutsideStillOk(w, steps, xs, who, step, ys, more, j); }
    }
  }

  // ----- a request that arrives, and one outside any lock -----

  lemma ArrivalExtends(w: World, steps: seq<Step>, s: State, step: Step, xs: seq<Served>, who: seq<nat>)
    requires SerialState(w, steps, s, xs, who) && step.Arrive? && Enabled(w, s, step)
    ensures SerialState(w, steps + [step], Next(w, s, step), xs, who)
  {
    ArriveStep(w, s, step, ServeAll(w, EMPTY, xs));
    StepKeepsPlaced(w, s, step, steps);
    ListedStill(steps, xs, who, step);
    ArrivalSettles(w, steps, s, step, xs, who);
    ArrivalCompletes(w, steps, s, step, who);
    AllOutsideStill(w, steps, step, xs, who, [], []);
    assert xs + [] == xs && who + [] == who;
  }

  lemma ArrivalSettles(w: World, steps: seq<Step>, s: State, step: Step, xs: seq<Served>, who: seq<nat>)
    requires Listed(steps, xs, who) && Settled(w, steps, s, xs, who) && step.Arrive? && Enabled(w, s, step)
    ensures Settled(w, steps + [step], Next(w, s, step), xs, who)
  {
    var t := Next(w, s, step);
    forall x | x in t.reqs ensures SettledOk(w, steps + [step], xs, who, x, t.reqs[x]) {
      ArrivedSnoc(steps, step, x);
      if x != step.r {
        assert SettledOk(w, steps, xs, who, x, s.reqs[x]);
        StillSettled(w, steps, step, xs, who, [], [], x, s.reqs[x], t.reqs[x]);
        assert xs + [] == xs && who + [] == who;
      }
    }
  }

  lemma ArrivalCompletes(w: World, steps: seq<Step>, s: State, step: Step, who: seq<nat>)
    requires Complete(steps, s, who) && step.Arrive? && Enabled(w, s, step)
    ensures Complete(steps + [step], Next(w, s, step), who)
  {
    var t, all := Next(w, s, step), steps + [step];
    forall j | 0 <= j < |all| && AsksFor(all[j]).Some? ensures j in who || Waiting(all, t, j) {
      if j == |steps| {
        ArrivedSnoc(steps, step, step.r);
        assert step.r in t.reqs && Decided(t.reqs[step.r]).None?;
      } else if j !in who {
        assert all[j] == steps[j];
        var x :| x in s.reqs && Decided(s.reqs[x]).None? && ArrivedAt(steps, x) == j;
        ArrivedSnoc(steps, step, x);
        assert x in t.reqs && t.reqs[x] == s.reqs[x];
      }
    }
  }

  lemma OutsideExtends(w: World, steps: seq<Step>, s: State, step: Step, xs: seq<Served>, who: seq<nat>)
    requires SerialState(w, steps, s, xs, who) && IsOutside(step) && Enabled(w, s, step)
    requires Possible(w, START, steps) && s == After(w, START, steps)
    requires WellFormed(w.fold, s.store) && Requests(w, s) && AllUpToDate(s)
    ensures SerialState(w, steps + [step], Next(w, s, step), xs + [Outside(step)], who + [|steps|])
  {
    var x, a := Outside(step), ServeAll(w, EMPTY, xs);
    if step.Open? { OpenIsServed(w, s, step, a); } else { DropIsServed(w, s, step, a); }
    ServeAllSplits(w, EMPTY, xs, [x]);
    ServeOne(w, a, x);
    StepKeepsPlaced(w, s, step, steps);
    ListedMore(steps, xs, who, step, x, |steps|);
    NowAnswered(w, xs, who, x, |steps|, OutsideAnswer(w, s, step));
    OutsideSettles(w, steps, s, step, xs, who, x);
    OutsideCompletes(w, steps, s, step, who);
    OutsideListed(w, steps, s, step, xs, who, x);
  }

  lemma OutsideStays(w: World, s: State, step: Step)
    requires IsOutside(step) && Enabled(w, s, step)
    ensures Next(w, s, step).reqs == s.reqs
  {
  }

  lemma OutsideSettles(w: World, steps: seq<Step>, s: State, step: Step, xs: seq<Served>, who: seq<nat>, x: Served)
    requires |who| == |xs| && Placed(steps, s) && Settled(w, steps, s, xs, who)
    requires IsOutside(step) && Enabled(w, s, step)
    ensures Settled(w, steps + [step], Next(w, s, step), xs + [x], who + [|steps|])
  {
    OutsideStays(w, s, step);
    forall r | r in s.reqs ensures SettledOk(w, steps + [step], xs + [x], who + [|steps|], r, s.reqs[r]) {
      assert PlacedOk(steps, r, s.reqs[r]) && SettledOk(w, steps, xs, who, r, s.reqs[r]);
      StillSettled(w, steps, step, xs, who, [x], [|steps|], r, s.reqs[r], s.reqs[r]);
    }
  }

  lemma OutsideCompletes(w: World, steps: seq<Step>, s: State, step: Step, who: seq<nat>)
    requires Complete(steps, s, who) && IsOutside(step) && Enabled(w, s, step)
    ensures Complete(steps + [step], Next(w, s, step), who + [|steps|])
  {
    OutsideStays(w, s, step);
    var all := steps + [step];
    forall j | 0 <= j < |all| && AsksFor(all[j]).Some?
      ensures j in who + [|steps|] || Waiting(all, Next(w, s, step), j)
    {
      if j < |steps| && j !in who {
        assert all[j] == steps[j];
        var x :| x in s.reqs && Decided(s.reqs[x]).None? && ArrivedAt(steps, x) == j;
        ArrivedSnoc(steps, step, x);
      }
    }
  }

  lemma OutsideListed(w: World, steps: seq<Step>, s: State, step: Step, xs: seq<Served>, who: seq<nat>, x: Served)
    requires |who| == |xs| && IsOutside(step) && Enabled(w, s, step)
    requires Possible(w, START, steps) && s == After(w, START, steps)
    requires forall j | 0 <= j < |steps| :: OutsideOk(w, steps, xs, who, j)
    requires AnsweredAt(w, xs + [x], who + [|steps|], |steps|, OutsideAnswer(w, s, step))
    ensures forall j | 0 <= j < |steps + [step]| :: OutsideOk(w, steps + [step], xs + [x], who + [|steps|], j)
  {
    forall j | 0 <= j < |steps + [step]| ensures OutsideOk(w, steps + [step], xs + [x], who + [|steps|], j) {
      if j < |steps| {
        OutsideStillOk(w, steps, xs, who, step, [x], [|steps|], j);
      } else {
        assert (steps + [step])[..j] == steps;
      }
    }
  }

  // ----- the theorem -----

  lemma {:induction false} RunSnoc(w: World, s: State, steps: seq<Step>)
    requires steps != [] && Possible(w, s, steps)
    ensures var n := |steps| - 1;
            && Possible(w, s, steps[..n]) && Enabled(w, After(w, s, steps[..n]), steps[n])
            && After(w, s, steps) == Next(w, After(w, s, steps[..n]), steps[n])
    decreases |steps|
  {
    var n := |steps| - 1;
    if n == 0 {
      assert steps[..0] == [];
    } else {
      assert steps[..n][1..] == steps[1..][..n - 1] && steps[..n][0] == steps[0];
      RunSnoc(w, Next(w, s, steps[0]), steps[1..]);
    }
  }

  lemma {:induction false} RunStaysSingle(w: World, s: State, steps: seq<Step>, process: nat)
    requires EngineContract(w) && Single(w, s, process) && Possible(w, s, steps)
    requires forall step | step in steps :: ArrivesAt(step, process)
    ensures Single(w, After(w, s, steps), process)
    decreases |steps|
  {
    if steps != [] {
      assert forall step | step in steps[1..] :: step in steps;
      StepKeepsSingle(w, s, steps[0], process);
      RunStaysSingle(w, Next(w, s, steps[0]), steps[1..], process);
    }
  }

  lemma ReachedIsSingle(w: World, steps: seq<Step>, process: nat)
    requires EngineContract(w) && Possible(w, START, steps)
    requires forall step | step in steps :: ArrivesAt(step, process)
    ensures Single(w, After(w, START, steps), process)
  {
    StartIsSafe(w);
    RunStaysSingle(w, START, steps, process);
  }

  lemma RequestMore(w: World, steps: seq<Step>, s: State, step: Step, process: nat, xs: seq<Served>, who: seq<nat>)
      returns (ys: seq<Served>, more: seq<nat>)
    requires Single(w, s, process) && Enabled(w, s, step) && SerialState(w, steps, s, xs, who) && OfSomeRequest(step)
    ensures SerialState(w, steps + [step], Next(w, s, step), xs + ys, who + more)
  {
    ys := RequestIsMatched(w, s, step, process, ServeAll(w, EMPTY, xs));
    RequestExtends(w, steps, s, step, xs, who, ys);
    more := Places(steps, ys, step.r);
  }

  lemma ArrivalMore(w: World, steps: seq<Step>, s: State, step: Step, xs: seq<Served>, who: seq<nat>)
    requires SerialState(w, steps, s, xs, who) && step.Arrive? && Enabled(w, s, step)
    ensures SerialState(w, steps + [step], Next(w, s, step), xs + [], who + [])
  {
    ArrivalExtends(w, steps, s, step, xs, who);
    assert xs + [] == xs && who + [] == who;
  }

  lemma SingleIsWellFormed(w: World, s: State, process: nat)
    requires Single(w, s, process)
    ensures WellFormed(w.fold, s.store) && Requests(w, s) && AllUpToDate(s)
  {
  }

  lemma OneMoreStep(w: World, steps: seq<Step>, s: State, step: Step, process: nat, xs: seq<Served>, who: seq<nat>)
      returns (ys: seq<Served>, more: seq<nat>)
    requires Single(w, s, process) && Enabled(w, s, step) && SerialState(w, steps, s, xs, who)
    requires Possible(w, START, steps) && s == After(w, START, steps)
    ensures SerialState(w, steps + [step], Next(w, s, step), xs + ys, who + more)
  {
    if OfSomeRequest(step) {
      ys, more := RequestMore(w, steps, s, step, process, xs, who);
    } else if step.Arrive? {
      ys, more := [], [];
      ArrivalMore(w, steps, s, step, xs, who);
    } else {
      ys, more := [Outside(step)], [|steps|];
      SingleIsWellFormed(w, s, process);
      OutsideExtends(w, steps, s, step, xs, who);
    }
  }

  lemma SnocRun(w: World, before: seq<Step>, step: Step)
    requires Possible(w, START, before + [step])
    ensures Possible(w, START, before) && Enabled(w, After(w, START, before), step)
    ensures After(w, START, before + [step]) == Next(w, After(w, START, before), step)
  {
    RunSnoc(w, START, before + [step]);
    assert (before + [step])[..|before|] == before;
  }

  lemma ExtendRun(w: World, before: seq<Step>, step: Step, process: nat, xs: seq<Served>, who: seq<nat>)
      returns (ys: seq<Served>, more: seq<nat>)
    requires EngineContract(w) && Possible(w, START, before + [step])
    requires forall x | x in before :: ArrivesAt(x, process)
    requires Serialised(w, before, xs, who)
    ensures Serialised(w, before + [step], xs + ys, who + more)
  {
    SnocRun(w, before, step);
    ReachedIsSingle(w, before, process);
    ys, more := OneMoreStep(w, before, After(w, START, before), step, process, xs, who);
  }

  /** At moment `k` of the run, the first `cuts[k]` of the order. */
  ghost predicate SerialAt(w: World, steps: seq<Step>, xs: seq<Served>, who: seq<nat>, cuts: seq<nat>, k: nat) {
    k <= |steps| && k < |cuts| && cuts[k] <= |xs| && cuts[k] <= |who|
    && Serialised(w, steps[..k], xs[..cuts[k]], who[..cuts[k]])
  }

  ghost predicate SerialThroughout(w: World, steps: seq<Step>, xs: seq<Served>, who: seq<nat>, cuts: seq<nat>) {
    && |cuts| == |steps| + 1 && cuts[|steps|] == |xs| == |who|
    && (forall j, k | 0 <= j <= k <= |steps| :: cuts[j] <= cuts[k])
    && (forall k | 0 <= k <= |steps| :: SerialAt(w, steps, xs, who, cuts, k))
  }

  /** Under one process every run is a sequence. There is an order `xs` of requests, each place of it belonging to the
      step that made the request (`who`, no step twice), and for every moment `k` of the run a prefix of it, `cuts[k]`
      long and never getting shorter, such that at that moment: the stored games and saves are those of serving the
      prefix one request after the other (but for sessions already decided and not yet written, and for timestamps);
      every request decided so far, and every new game and save deleted, has its own place there and the answer given
      at it; and every request made so far is in it or still undecided. */
  lemma {:induction false} EveryRunIsASequence(w: World, steps: seq<Step>, process: nat)
      returns (xs: seq<Served>, who: seq<nat>, cuts: seq<nat>)
    requires EngineContract(w) && Possible(w, START, steps)
    requires forall step | step in steps :: ArrivesAt(step, process)
    ensures SerialThroughout(w, steps, xs, who, cuts)
    decreases |steps|
  {
    if steps == [] {
      xs, who, cuts := [], [], [0];
      StartIsSerial(w);
      assert steps[..0] == [] && xs[..0] == [] && who[..0] == [];
    } else {
      var before := steps[..|steps| - 1];
      RunSnoc(w, START, steps);
      xs, who, cuts := EveryRunIsASequence(w, before, process);
      xs, who, cuts := ThroughOneMore(w, steps, process, xs, who, cuts);
    }
  }

  lemma ThroughOneMore(w: World, steps: seq<Step>, process: nat, before: seq<Served>, made: seq<nat>, upTo: seq<nat>)
      returns (xs: seq<Served>, who: seq<nat>, cuts: seq<nat>)
    requires EngineContract(w) && steps != [] && Possible(w, START, steps)
    requires forall step | step in steps :: ArrivesAt(step, process)
    requires SerialThroughout(w, steps[..|steps| - 1], before, made, upTo)
    ensures SerialThroughout(w, steps, xs, who, cuts)
  {
    SerialAtEnd(w, steps[..|steps| - 1], before, made, upTo);
    assert steps == steps[..|steps| - 1] + [steps[|steps| - 1]];
    var ys, more := ExtendRun(w, steps[..|steps| - 1], steps[|steps| - 1], process, before, made);
    xs, who, cuts := before + ys, made + more, upTo + [|before + ys|];
    SameLength(w, steps, xs, who);
    ExtendThroughout(w, steps, before, made, upTo, ys, more);
  }

  lemma SameLength(w: World, steps: seq<Step>, xs: seq<Served>, who: seq<nat>)
    requires Serialised(w, steps, xs, who)
    ensures |who| == |xs|
  {
  }

  lemma SerialAtEnd(w: World, steps: seq<Step>, xs: seq<Served>, who: seq<nat>, cuts: seq<nat>)
    requires SerialThroughout(w, steps, xs, who, cuts)
    ensures Serialised(w, steps, xs, who)
  {
    assert SerialAt(w, steps, xs, who, cuts, |steps|);
    assert steps[..|steps|] == steps && xs[..|xs|] == xs && who[..|who|] == who;
  }

  lemma ExtendThroughout(w: World, steps: seq<Step>, xs: seq<Served>, who: seq<nat>, cuts: seq<nat>, ys: seq<Served>,
                         more: seq<nat>)
    requires steps != [] && SerialThroughout(w, steps[..|steps| - 1], xs, who, cuts)
    requires Serialised(w, steps, xs + ys, who + more) && |xs + ys| == |who + more|
    ensures SerialThroughout(w, steps, xs + ys, who + more, cuts + [|xs + ys|])
  {
    var all := cuts + [|xs + ys|];
    forall k | 0 <= k <= |steps| ensures SerialAt(w, steps, xs + ys, who + more, all, k) {
      if k < |steps| {
        assert SerialAt(w, steps[..|steps| - 1], xs, who, cuts, k);
        StillSerial(w, steps, xs, who, cuts, ys, more, k);
      } else {
        assert steps[..k] == steps && (xs + ys)[..all[k]] == xs + ys && (who + more)[..all[k]] == who + more;
      }
    }
  }

  lemma StillSerial(w: World, steps: seq<Step>, xs: seq<Served>, who: seq<nat>, cuts: seq<nat>, ys: seq<Served>,
                    more: seq<nat>, k: nat)
    requires steps != [] && SerialAt(w, steps[..|steps| - 1], xs, who, cuts, k)
    ensures SerialAt(w, steps, xs + ys, who + more, cuts + [|xs + ys|], k)
  {
    assert steps[..|steps| - 1][..k] == steps[..k];
    assert (cuts + [|xs + ys|])[k] == cuts[k] && (xs + ys)[..cuts[k]] == xs[..cuts[k]];
    assert (who + more)[..cuts[k]] == who[..cuts[k]];
  }

  lemma StartIsSerial(w: World)
    ensures Serialised(w, [], [], [])
  {
  }

  /** When everybody has left, the games, saves and counters are those of serving exactly the requests made, each once,
      in that order. */
  lemma QuietRunsAreServed(w: World, steps: seq<Step>, process: nat) returns (xs: seq<Served>, who: seq<nat>)
    requires EngineContract(w) && Possible(w, START, steps)
    requires forall step | step in steps :: ArrivesAt(step, process)
    requires After(w, START, steps).reqs == map[]
    ensures Listed(steps, xs, who) && forall j | 0 <= j < |steps| :: j in who <==> AsksFor(steps[j]).Some?
    ensures var s, a := After(w, START, steps).store, ServeAll(w, EMPTY, xs);
            a.sessions == s.sessions && a.saves == s.saves && a.nextID == s.nextID && a.nextSave == s.nextSave
  {
    var cuts;
    xs, who, cuts := EveryRunIsASequence(w, steps, process);
    SerialAtEnd(w, steps, xs, who, cuts);
    QuietIsServed(w, steps, After(w, START, steps), xs, who);
  }

  lemma QuietIsServed(w: World, steps: seq<Step>, s: State, xs: seq<Served>, who: seq<nat>)
    requires SerialState(w, steps, s, xs, who) && s.reqs == map[]
    ensures forall j | 0 <= j < |steps| :: j in who <==> AsksFor(steps[j]).Some?
    ensures ServeAll(w, EMPTY, xs).sessions == s.store.sessions
  {
    NothingDue(s, ServeAll(w, EMPTY, xs));
    forall j | 0 <= j < |steps| ensures j in who <==> AsksFor(steps[j]).Some? {
      assert !Waiting(steps, s, j);
      if j in who { var i :| 0 <= i < |who| && who[i] == j; }
    }
  }

  lemma NothingDue(s: State, a: Store)
    requires Matches(s, a) && s.reqs == map[]
    ensures a.sessions == s.store.sessions
  {
    forall id | id in s.store.sessions ensures a.sessions[id] == s.store.sessions[id] {
      assert !DueOn(s, id);
    }
  }
}
