/** What the player reads: the stored screen and turn counter of a game, told from its log. */
module Screens {
  import opened GameStore
  import opened Transcript
  import opened Service
  import opened Protocol
  import opened ProtocolSafety
  import opened ProtocolTheorems

  // ----- beginning again -----

  /** A restart stores the opening exactly as a new game would: whatever was played before, the session differs
      from a newly created one only in its identifier and version. */
  lemma RestartIsANewGame(w: World, s: Store, user: string, game: string, story: string, seed: nat, now: int)
    requires Good(w, s) && user != "" && Owns(s, user, game)
    requires story in w.stories && w.stories[story] == s.sessions[game].storyKey
    ensures var again := Serve(w, s, On(user, game, RestartOp), seed, now).1;
            var first := Serve(w, s, NewGame(user, story), seed, now).1;
            && (again.Answered? <==> first.Answered?)
            && (again.Answered? ==>
                  again.session == first.session.(id := game, version := s.sessions[game].version + 1))
            && (again.Refused? ==> again == first)
  {
    LoadedIsStored(w, s, user, game);
  }

  // ----- going on -----

  /** Entries that add to the screen: turns the engine answered, and saves. */
  ghost predicate Adds(w: World, h: History, i: nat)
    requires i < |h.ops|
  {
    match h.ops[i]
    case CPlayed(command, seed) =>
      RunTurn(w, Replay(w, h, i).storyKey, Replay(w, h, i).state, command, seed).Done?
    case CSaved(_, _, _) => true
    case _ => false
  }

  ghost predicate OnlyAdds(w: World, h: History, a: nat, b: nat) {
    b <= |h.ops| && forall i | a <= i < b :: Adds(w, h, i)
  }

  function Added(w: World, h: History, i: nat): string
    requires i < |h.ops|
  {
    match h.ops[i]
    case CPlayed(command, seed) =>
      var o := RunTurn(w, Replay(w, h, i).storyKey, Replay(w, h, i).state, command, seed);
      if o.Done? then Exchange(command, o.result.output) else ""
    case CSaved(name, echo, replaced) => Notice(echo, SavedNotice(w, name, replaced))
    case _ => ""
  }

  function Texts(w: World, h: History, a: nat, b: nat): (texts: seq<string>)
    requires a <= b <= |h.ops|
    ensures |texts| == b - a
  {
    seq(b - a, i requires 0 <= i < b - a => Added(w, h, a + i))
  }

  function Turns(h: History, a: nat, b: nat): nat
    requires a <= b <= |h.ops|
    decreases b
  {
    if a == b then 0 else Turns(h, a, b - 1) + (if h.ops[b - 1].CPlayed? then 1 else 0)
  }

  /** Screens each made of the one before and a text, trimmed, are the incremental trimming of the texts. */
  lemma {:induction false} ScreensFollow(screens: seq<string>, texts: seq<string>)
    requires |screens| == |texts| + 1
    requires forall i | 0 <= i < |texts| :: screens[i + 1] == Trim(screens[i] + texts[i], MAX_TRANSCRIPT_BYTES)
    ensures screens[|texts|] == Incremental(screens[0], texts, MAX_TRANSCRIPT_BYTES)
    decreases |texts|
  {
    if texts != [] {
      var n := |texts| - 1;
      ScreensFollow(screens[..n + 1], texts[..n]);
    }
  }

  function Shown(w: World, h: History, a: nat, b: nat): (screens: seq<string>)
    requires a <= b <= |h.ops|
    ensures |screens| == b - a + 1
    ensures forall i: nat, n: nat | a + i == n && n <= b :: screens[i] == Replay(w, h, n).transcript
  {
    seq(b - a + 1, i requires 0 <= i <= b - a => Replay(w, h, a + i).transcript)
  }

  lemma ShownFollows(w: World, h: History, a: nat, b: nat, i: nat)
    requires a + i < b && OnlyAdds(w, h, a, b)
    ensures Shown(w, h, a, b)[i + 1] == Trim(Shown(w, h, a, b)[i] + Texts(w, h, a, b)[i], MAX_TRANSCRIPT_BYTES)
  {
    var n := a + i;
    assert Adds(w, h, n);
    StepAppends(w, h, n);
  }

  /** Over a stretch of turns and saves the screen is what the stretch began with, each text appended and
      trimmed in turn. */
  lemma ScreenOverStretch(w: World, h: History, a: nat, b: nat)
    requires a <= b && OnlyAdds(w, h, a, b)
    ensures Replay(w, h, b).transcript ==
            Incremental(Replay(w, h, a).transcript, Texts(w, h, a, b), MAX_TRANSCRIPT_BYTES)
  {
    var screens, texts := Shown(w, h, a, b), Texts(w, h, a, b);
    forall i | 0 <= i < |texts| ensures screens[i + 1] == Trim(screens[i] + texts[i], MAX_TRANSCRIPT_BYTES) {
      ShownFollows(w, h, a, b, i);
    }
    ScreensFollow(screens, texts);
  }

  /** And the counter moves by the number of turns. */
  lemma {:induction false} TurnsOverStretch(w: World, h: History, a: nat, b: nat)
    requires a <= b && OnlyAdds(w, h, a, b)
    ensures Replay(w, h, b).turn == Replay(w, h, a).turn + Turns(h, a, b)
    decreases b
  {
    if a < b {
      assert OnlyAdds(w, h, a, b - 1) && Adds(w, h, b - 1);
      TurnsOverStretch(w, h, a, b - 1);
      StepAppends(w, h, b - 1);
    }
  }

  lemma StepAppends(w: World, h: History, i: nat)
    requires i < |h.ops| && Adds(w, h, i)
    ensures Replay(w, h, i + 1).transcript == Trim(Replay(w, h, i).transcript + Added(w, h, i), MAX_TRANSCRIPT_BYTES)
    ensures Replay(w, h, i + 1).turn == Replay(w, h, i).turn + (if h.ops[i].CPlayed? then 1 else 0)
  {
  }

  /** In every interleaving, for every stored game and every point of its log after which it was only played
      and saved: the counter has moved by the number of turns, and the stored screen is the screen at that
      point with everything since appended, trimmed once, or is the exact-fit suffix of it. */
  lemma StoredScreens(w: World, steps: seq<Step>, id: string, a: nat)
    requires EngineContract(w) && Possible(w, START, steps)
    requires id in After(w, START, steps).store.sessions && id in After(w, START, steps).log
    requires var h := After(w, START, steps).log[id]; a < |h.ops| && OnlyAdds(w, h, a, |h.ops|)
    ensures var s := After(w, START, steps);
            var h := s.log[id];
            var screen := s.store.sessions[id].transcript;
            var whole := Transcript.History(Replay(w, h, a).transcript, Texts(w, h, a, |h.ops|));
            && s.store.sessions[id].turn == Replay(w, h, a).turn + Turns(h, a, |h.ops|)
            && (screen == Trim(whole, MAX_TRANSCRIPT_BYTES) || ExactFit(screen, whole, MAX_TRANSCRIPT_BYTES))
  {
    EveryRunReplays(w, steps);
    var s := After(w, START, steps);
    var h := s.log[id];
    assert StoredIsReplay(w, s, id);
    ScreenOverStretch(w, h, a, |h.ops|);
    TurnsOverStretch(w, h, a, |h.ops|);
    IncrementalTrimming(Replay(w, h, a).transcript, Texts(w, h, a, |h.ops|), MAX_TRANSCRIPT_BYTES);
  }
}
