/** The playback session: the `playing` and `currentMode` flags written by
    `startLoop` and the lock button, and the head of the playback loop, which
    checks the guard `playing && currentMode === mode` and picks a recording
    from the bucket as it stands at that moment. Timers, audio and the awaits
    between loop head and the next check are not part of this model. */
module Playback {
  import opened Recordings

  datatype Option<T> = None | Some(value: T)

  /** The two module-level flags; `currentMode` is `null` as `None`. */
  datatype Flags = Flags(playing: bool, currentMode: Option<Mode>)

  /** The loop's continuation guard `playing && currentMode === mode`. */
  predicate Guard(f: Flags, mode: Mode) {
    f.playing && f.currentMode == Some(mode)
  }

  /** At most one mode passes the guard at a time. */
  lemma GuardExclusive(f: Flags, m: Mode, m': Mode)
    requires Guard(f, m) && Guard(f, m')
    ensures m == m'
  {
  }

  /** The events that write the flags: `startLoop(mode)` while the bucket of
      `mode` holds `bucketSize` recordings, and the lock button. */
  datatype Event = Start(mode: Mode, bucketSize: nat) | Lock

  /** The flags after one event: a start on an empty bucket changes nothing;
      a lock or any other start leaves the guard true for the started mode
      only, or for no mode after a lock. */
  function Apply(f: Flags, e: Event): (r: Flags)
    ensures !Effective(e) ==> r == f
    ensures Effective(e) ==> forall m :: Guard(r, m) <==> e.Start? && e.mode == m
  {
    match e
    case Start(m, n) => if n == 0 then f else Flags(true, Some(m))
    case Lock => Flags(false, None)
  }

  /** The flags after a sequence of events, in order; events that write
      nothing leave the flags as they were. */
  function Run(f: Flags, evs: seq<Event>): (r: Flags)
    ensures QuietFrom(evs, 0) ==> r == f
  {
    if evs == [] then f else Apply(Run(f, evs[..|evs| - 1]), evs[|evs| - 1])
  }

  /** An event that writes the flags: a lock, or a start on a non-empty bucket. */
  predicate Effective(e: Event) {
    e.Lock? || e.bucketSize > 0
  }

  /** Event `i` is a start of `mode` on a non-empty bucket. */
  predicate StartsAt(evs: seq<Event>, i: int, mode: Mode)
    requires 0 <= i < |evs|
  {
    evs[i].Start? && evs[i].mode == mode && evs[i].bucketSize > 0
  }

  /** No event from position `i` on writes the flags. */
  predicate QuietFrom(evs: seq<Event>, i: nat) {
    forall j :: i <= j < |evs| ==> !Effective(evs[j])
  }

  /** After any sequence of events, the guard for `mode` holds exactly when the
      last event that wrote the flags was a start of `mode` on a non-empty
      bucket, or no event wrote them and the guard held before. */
  lemma {:induction false} GuardAfterRun(f: Flags, evs: seq<Event>, mode: Mode)
    ensures Guard(Run(f, evs), mode) <==>
      (exists i :: 0 <= i < |evs| && StartsAt(evs, i, mode) && QuietFrom(evs, i + 1))
      || (QuietFrom(evs, 0) && Guard(f, mode))
  {
    if evs != [] {
      var n := |evs|;
      var init := evs[..n - 1];
      var e := evs[n - 1];
      GuardAfterRun(f, init, mode);
      if !Effective(e) {
        if i :| 0 <= i < |init| && StartsAt(init, i, mode) && QuietFrom(init, i + 1) {
          assert StartsAt(evs, i, mode) && QuietFrom(evs, i + 1);
        }
        if i :| 0 <= i < n && StartsAt(evs, i, mode) && QuietFrom(evs, i + 1) {
          assert i < n - 1;
          assert StartsAt(init, i, mode) && QuietFrom(init, i + 1);
        }
        assert QuietFrom(evs, 0) <==> QuietFrom(init, 0);
      } else {
        assert !QuietFrom(evs, 0);
        forall i | 0 <= i < n - 1 && StartsAt(evs, i, mode) ensures !QuietFrom(evs, i + 1) {
          assert Effective(evs[n - 1]);
        }
        if StartsAt(evs, n - 1, mode) {
          assert QuietFrom(evs, n);
        }
      }
    }
  }

  /** Fencing of a stale loop: once a lock or a start of another mode has
      written the flags, the guard for `mode` stays false until `mode` is
      started again on a non-empty bucket. */
  lemma StaleGuardFails(f: Flags, evs: seq<Event>, i: nat, mode: Mode)
    requires i < |evs| && Effective(evs[i]) && !StartsAt(evs, i, mode)
    requires forall j :: i < j < |evs| ==> !StartsAt(evs, j, mode)
    ensures !Guard(Run(f, evs), mode)
  {
    GuardAfterRun(f, evs, mode);
    assert !QuietFrom(evs, 0);
    forall k | 0 <= k < |evs| && StartsAt(evs, k, mode) ensures !QuietFrom(evs, k + 1) {
      assert k < i;
      assert Effective(evs[i]);
    }
  }

  /** What the loop does at its head: leave the loop, pick from an empty bucket
      (`list[0]` is `undefined`, and reading its name then throws), or play the
      picked recording. */
  datatype Step = Exit | EmptyPick | Play(pick: Recording)

  /** The flags as they start, before any event. */
  const INITIAL: Flags := Flags(false, None)

  lemma RunAppend(f: Flags, evs: seq<Event>, e: Event)
    ensures Run(f, evs + [e]) == Apply(Run(f, evs), e)
  {
    assert (evs + [e])[..|evs|] == evs;
  }

  /** The playback flags, with the ghost history of events that wrote them. */
  class Session {
    var playing: bool
    var currentMode: Option<Mode>
    ghost var history: seq<Event>

    ghost predicate Valid()
      reads this
    {
      State() == Run(INITIAL, history)
    }

    constructor ()
      ensures Valid() && State() == INITIAL && history == []
    {
      playing := false;
      currentMode := None;
      history := [];
    }

    function State(): Flags
      reads this
    {
      Flags(playing, currentMode)
    }

    /** `startLoop(mode)` up to the loop: ignored on an empty bucket, otherwise
        sets `playing` and `currentMode`. */
    method StartLoop(mode: Mode, store: Store) returns (started: bool)
      requires Valid()
      modifies this
      ensures Valid() && history == old(history) + [Start(mode, |store.Bucket(mode)|)]
      ensures started <==> store.Bucket(mode) != []
      ensures State() == Apply(old(State()), Start(mode, |store.Bucket(mode)|))
      ensures !started ==> State() == old(State())
      ensures started ==> Guard(State(), mode) && forall m :: m != mode ==> !Guard(State(), m)
    {
      RunAppend(INITIAL, history, Start(mode, |store.Bucket(mode)|));
      history := history + [Start(mode, |store.Bucket(mode)|)];
      if |store.Bucket(mode)| == 0 {
        return false;
      }
      playing := true;
      currentMode := Some(mode);
      started := true;
    }

    /** The lock button's flag reset. */
    method Lock()
      requires Valid()
      modifies this
      ensures Valid() && history == old(history) + [Event.Lock]
      ensures State() == Apply(old(State()), Event.Lock)
      ensures forall m :: !Guard(State(), m)
    {
      RunAppend(INITIAL, history, Event.Lock);
      history := history + [Event.Lock];
      playing := false;
      currentMode := None;
    }

    /** One check of the loop head for a loop started in `mode`, with `k` the
        random index `Math.floor(Math.random() * list.length)`, which is 0 on
        an empty list. */
    method LoopHead(mode: Mode, store: Store, k: nat) returns (step: Step)
      requires if store.Bucket(mode) == [] then k == 0 else k < |store.Bucket(mode)|
      ensures step.Exit? <==> !Guard(State(), mode)
      ensures step.EmptyPick? <==> Guard(State(), mode) && store.Bucket(mode) == []
      ensures step.Play? <==> Guard(State(), mode) && store.Bucket(mode) != []
      ensures step.Play? ==> step.pick == store.Bucket(mode)[k]
    {
      if !(playing && currentMode == Some(mode)) {
        return Exit;
      }
      var list := store.Bucket(mode);
      if list == [] {
        step := EmptyPick;
      } else {
        step := Play(list[k]);
      }
    }
  }

  /** Good holds "chirp" and "tweet", bad is empty: starting bad is ignored,
      starting good plays one of the two, a bad loop never passes its guard,
      and after the lock the good loop stops. */
  method PlaybackScenario(chirp: Blob, tweet: Blob, k: nat)
      returns (badStarted: bool, goodStep: Step, badStep: Step, lockedStep: Step)
    requires k < 2
    ensures !badStarted
    ensures goodStep.Play? && goodStep.pick.name in {"chirp", "tweet"}
    ensures badStep.Exit? && lockedStep.Exit?
  {
    var store := new Store();
    store.Save(Good, "chirp", chirp);
    store.Save(Good, "tweet", tweet);
    var session := new Session();
    badStarted := session.StartLoop(Bad, store);
    var goodStarted := session.StartLoop(Good, store);
    goodStep := session.LoopHead(Good, store, k);
    badStep := session.LoopHead(Bad, store, 0);
    session.Lock();
    lockedStep := session.LoopHead(Good, store, k);
  }

  /** A good loop running when bad is started exits at its next loop head,
      while the bad loop plays a bad recording. */
  method ModeSwitchScenario(chirp: Blob, croak: Blob)
      returns (staleStep: Step, newStep: Step)
    ensures staleStep.Exit?
    ensures newStep.Play? && newStep.pick == Recording("croak", croak)
  {
    var store := new Store();
    store.Save(Good, "chirp", chirp);
    store.Save(Bad, "croak", croak);
    var session := new Session();
    var started := session.StartLoop(Good, store);
    started := session.StartLoop(Bad, store);
    staleStep := session.LoopHead(Good, store, 0);
    newStep := session.LoopHead(Bad, store, 0);
  }
}
