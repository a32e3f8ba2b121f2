/**
  The resource-load gate: a set of tracked asset handles, and the per-frame
  system that moves the game from Loading to Running once the asset server
  reports the whole group loaded. Handles are an opaque type with equality;
  the asset server's group load state is an oracle over the tracked set.
 */
module AssetTracking {

  /** The set of tracked handles; tracking is idempotent. */
  datatype AssetTracker<H> = AssetTracker(handles: set<H>)

  /** The tracker at start-up tracks nothing. */
  function NewTracker<H>(): (t: AssetTracker<H>)
    ensures Len(t) == 0
  {
    AssetTracker({})
  }

  /** Adds a handle to the tracked set. */
  function Track<H>(t: AssetTracker<H>, h: H): (r: AssetTracker<H>)
    ensures h in r.handles
    ensures t.handles <= r.handles
    ensures forall g :: g in r.handles ==> g in t.handles || g == h
    ensures Len(r) == if h in t.handles then Len(t) else Len(t) + 1
  {
    assert h in t.handles ==> t.handles + {h} == t.handles;
    AssetTracker(t.handles + {h})
  }

  /** Number of distinct tracked handles. */
  function Len<H>(t: AssetTracker<H>): (n: nat)
    ensures n == 0 <==> t.handles == {}
    ensures forall h :: h in t.handles ==> 1 <= n
  {
    |t.handles|
  }

  /** Whether nothing is tracked. */
  function IsEmpty<H>(t: AssetTracker<H>): (b: bool)
    ensures b <==> Len(t) == 0
    ensures b <==> forall h :: h !in t.handles
  {
    t.handles == {}
  }

  /** Tracking the same handle twice is tracking it once. */
  lemma TrackIdempotent<H>(t: AssetTracker<H>, h: H)
    ensures Track(Track(t, h), h) == Track(t, h)
    ensures h in t.handles ==> Track(t, h) == t
  {
  }

  /** Tracks each handle of a sequence in turn. */
  function TrackAll<H>(t: AssetTracker<H>, hs: seq<H>): AssetTracker<H>
    decreases |hs|
  {
    if |hs| == 0 then t else TrackAll(Track(t, hs[0]), hs[1..])
  }

  /** After any sequence of `track` calls the tracked set is the old set plus
      the handles passed, so `len` counts distinct handles, not calls. */
  lemma {:induction false} TrackAllAddsExactly<H>(t: AssetTracker<H>, hs: seq<H>)
    ensures TrackAll(t, hs).handles == t.handles + set i | 0 <= i < |hs| :: hs[i]
    ensures Len(TrackAll(t, hs)) <= Len(t) + |hs|
    decreases |hs|
  {
    if |hs| > 0 {
      var rest := hs[1..];
      TrackAllAddsExactly(Track(t, hs[0]), rest);
      var all := set i | 0 <= i < |hs| :: hs[i];
      var tail := set i | 0 <= i < |rest| :: rest[i];
      assert all == {hs[0]} + tail by {
        forall g | g in all ensures g in {hs[0]} + tail {
          var i :| 0 <= i < |hs| && hs[i] == g;
          if i > 0 { assert rest[i - 1] == g; }
        }
        forall g | g in tail ensures g in all {
          var i :| 0 <= i < |rest| && rest[i] == g;
          assert hs[i + 1] == g;
        }
      }
    }
  }

  // ---------------------------------------------------------------------
  // The Loading -> Running gate.
  // ---------------------------------------------------------------------

  /** Process-wide game state; the game starts Loading. */
  datatype GameState = Loading | Running

  /** Aggregate load state the asset server reports for a group of handles. */
  datatype LoadState = NotLoaded | InProgress | Loaded | Failed | Unloaded

  /** The asset server's group load query, applied to the tracked handles. */
  type LoadOracle<!H> = set<H> -> LoadState

  datatype Option<+T> = None | Some(value: T)

  /** One run of the polling system: it reads the tracker and the pending
      next state, and requests Running exactly when the group is Loaded. */
  function PollNextState<H>(t: AssetTracker<H>, groupLoadState: LoadOracle<H>, next: Option<GameState>): (r: Option<GameState>)
    ensures groupLoadState(t.handles) == Loaded ==> r == Some(Running)
    ensures groupLoadState(t.handles) != Loaded ==> r == next
  {
    if groupLoadState(t.handles) == Loaded then Some(Running) else next
  }

  /** The slice of the app the gate touches: the current state, the pending
      next state, and the tracker. */
  datatype App<H> = App(state: GameState, next: Option<GameState>, tracker: AssetTracker<H>)

  /** The app at start-up. */
  function StartApp<H>(): (a: App<H>)
    ensures a.state == Loading && a.next == None && IsEmpty(a.tracker)
  {
    App(Loading, None, NewTracker())
  }

  /** One frame: the pending state transition is applied, producers track
      handles, and the polling system runs last, only while Loading. */
  function Frame<H>(a: App<H>, tracked: seq<H>, groupLoadState: LoadOracle<H>): (r: App<H>)
    ensures r.tracker == TrackAll(a.tracker, tracked)
  {
    var state := if a.next.Some? then a.next.value else a.state;
    var tracker := TrackAll(a.tracker, tracked);
    if state == Loading then
      App(state, PollNextState(tracker, groupLoadState, None), tracker)
    else
      App(state, None, tracker)
  }

  /** The only state ever requested is Running. */
  ghost predicate OnlyRunningRequested<H>(a: App<H>)
  {
    a.next == None || a.next == Some(Running)
  }

  /** A frame keeps the gate well formed; it never leaves Running; and a
      Loading frame requests Running exactly when the group is Loaded, and
      otherwise leaves the state Loading with nothing pending. */
  lemma FrameStep<H>(a: App<H>, tracked: seq<H>, oracle: LoadOracle<H>)
    requires OnlyRunningRequested(a)
    ensures OnlyRunningRequested(Frame(a, tracked, oracle))
    ensures a.state == Running ==> Frame(a, tracked, oracle).state == Running
    ensures a.next == Some(Running) ==> Frame(a, tracked, oracle).state == Running
    ensures a.state == Loading && a.next == None ==>
      var r := Frame(a, tracked, oracle);
      && r.state == Loading
      && (r.next == Some(Running) <==> oracle(r.tracker.handles) == Loaded)
  {
  }

  /** Runs a sequence of frames, each with the handles tracked during it and
      the asset server's answer during it. */
  function RunFrames<H>(a: App<H>, frames: seq<(seq<H>, LoadOracle<H>)>): App<H>
    decreases |frames|
  {
    if |frames| == 0 then a else RunFrames(Frame(a, frames[0].0, frames[0].1), frames[1..])
  }

  /** Running is absorbing: from a Running app, every later frame, whatever
      is tracked and whatever the asset server reports, stays Running. */
  lemma {:induction false} RunningIsAbsorbing<H>(a: App<H>, frames: seq<(seq<H>, LoadOracle<H>)>)
    requires OnlyRunningRequested(a) && (a.state == Running || a.next == Some(Running))
    ensures RunFrames(a, frames).state == Running || |frames| == 0
    ensures OnlyRunningRequested(RunFrames(a, frames))
    ensures RunFrames(a, frames).state == Running || RunFrames(a, frames).next == Some(Running)
    decreases |frames|
  {
    if |frames| > 0 {
      var a1 := Frame(a, frames[0].0, frames[0].1);
      FrameStep(a, frames[0].0, frames[0].1);
      RunningIsAbsorbing(a1, frames[1..]);
    }
  }

  /** Once the game state is Running, it never returns to Loading. */
  lemma NeverBackToLoading<H>(a: App<H>, frames: seq<(seq<H>, LoadOracle<H>)>)
    requires OnlyRunningRequested(a) && a.state == Running
    ensures RunFrames(a, frames).state == Running
  {
    RunningIsAbsorbing(a, frames);
  }

  /** Frames never request anything but Running. */
  lemma {:induction false} RunFramesOnlyRequestRunning<H>(a: App<H>, frames: seq<(seq<H>, LoadOracle<H>)>)
    requires OnlyRunningRequested(a)
    ensures OnlyRunningRequested(RunFrames(a, frames))
    decreases |frames|
  {
    if |frames| > 0 {
      FrameStep(a, frames[0].0, frames[0].1);
      RunFramesOnlyRequestRunning(Frame(a, frames[0].0, frames[0].1), frames[1..]);
    }
  }

  /** Running two stretches of frames is running their concatenation. */
  lemma {:induction false} RunFramesAppend<H>(a: App<H>, first: seq<(seq<H>, LoadOracle<H>)>, second: seq<(seq<H>, LoadOracle<H>)>)
    ensures RunFrames(a, first + second) == RunFrames(RunFrames(a, first), second)
    decreases |first|
  {
    if |first| == 0 {
      assert first + second == second;
    } else {
      assert (first + second)[1..] == first[1..] + second;
      RunFramesAppend(Frame(a, first[0].0, first[0].1), first[1..], second);
    }
  }

  /** From start-up, once the game state is Running, no later frames return
      it to Loading. */
  lemma ReachableNeverBackToLoading<H>(before: seq<(seq<H>, LoadOracle<H>)>, after: seq<(seq<H>, LoadOracle<H>)>)
    requires RunFrames(StartApp<H>(), before).state == Running
    ensures RunFrames(StartApp<H>(), before + after).state == Running
  {
    RunFramesOnlyRequestRunning(StartApp<H>(), before);
    RunFramesAppend(StartApp<H>(), before, after);
    NeverBackToLoading(RunFrames(StartApp<H>(), before), after);
  }

  /** While the asset server reports anything but Loaded, the game stays
      Loading with nothing pending, however many handles are tracked. */
  lemma {:induction false} StaysLoadingUntilLoaded<H>(a: App<H>, frames: seq<(seq<H>, LoadOracle<H>)>)
    requires a.state == Loading && a.next == None
    requires forall i :: 0 <= i < |frames| ==> forall s :: frames[i].1(s) != Loaded
    ensures RunFrames(a, frames).state == Loading && RunFrames(a, frames).next == None
    decreases |frames|
  {
    if |frames| > 0 {
      var a1 := Frame(a, frames[0].0, frames[0].1);
      assert frames[0].1(a1.tracker.handles) != Loaded;
      assert forall i :: 0 <= i < |frames[1..]| ==> frames[1..][i] == frames[i + 1];
      StaysLoadingUntilLoaded(a1, frames[1..]);
    }
  }

  /** A concrete asset server: a group is Loaded exactly when every handle
      in it has finished loading. */
  function LoadedWhenAllIn<H>(finished: set<H>): LoadOracle<H>
  {
    s => if s <= finished then Loaded else InProgress
  }

  /** Two textures tracked, only one loaded: the game stays Loading; once
      both are loaded the next poll requests Running, and the frame after
      that the game is Running. */
  lemma PartialLoadScenario()
    ensures var a1 := Frame(StartApp<int>(), [1, 2], LoadedWhenAllIn({1}));
      && a1.state == Loading && a1.next == None && Len(a1.tracker) == 2
      && var a2 := Frame(a1, [], LoadedWhenAllIn({1, 2}));
         && a2.state == Loading && a2.next == Some(Running)
         && Frame(a2, [], LoadedWhenAllIn({1, 2})).state == Running
  {
  }
}
