/** gosrc/logger/log.go: rotating a project's log. The five numbered files and the live log must together
    hold the end of everything ever written. */
module LogRotation {
  import opened Wrappers

  const MAX_LOG_SIZE: nat := 50 * 1024 * 1024
  const MAX_LOG_ROTATION: nat := 5

  /** The files of one log: the live one, and path.1 .. path.5. */
  datatype Files = Files(live: Option<string>, slots: map<nat, string>)

  predicate Due(f: Files) {
    f.live.Some? && |f.live.value| >= MAX_LOG_SIZE
  }

  /** What one rotation means: every numbered file moves up by one, the fifth is dropped, the live log
      becomes the first. `created` says whether the fresh log could be created. */
  function Rotated(f: Files, created: bool): Files {
    if Due(f) then
      Files(if created then Some("") else None,
            map i | i in {1, 2, 3, 4, 5} && MovesUp(f, i) :: if i == 1 then f.live.value else f.slots[i - 1])
    else f
  }

  predicate MovesUp(f: Files, i: nat) {
    i == 1 || (i > 1 && i - 1 in f.slots)
  }

  function Rename(slots: map<nat, string>, from: nat, to: nat): map<nat, string> {
    if from in slots then (slots - {from})[to := slots[from]] else slots
  }

  class LogDirectory {
    var live: Option<string>
    var slots: map<nat, string>

    ghost function State(): Files
      reads this
    {
      Files(live, slots)
    }

    ghost predicate Valid()
      reads this
    {
      Numbered(slots)
    }

    constructor ()
      ensures Valid() && State() == Files(None, map[])
    {
      live, slots := None, map[];
    }

    /** Opening by path with append and create, then writing. */
    method Append(text: string)
      requires Valid()
      modifies this
      ensures Valid() && State() == Appended(old(State()), text)
      ensures Kept(State()) == Kept(old(State())) + text && slots == old(slots)
    {
      AppendKept(State(), text);
      if live.None? {
        live := Some(text);
      } else {
        live := Some(live.value + text);
      }
    }

    method RotateLogIfNeeded(created: bool)
      requires Valid()
      modifies this
      ensures Valid() && State() == Rotated(old(State()), created)
      ensures Kept(old(State())) == Dropped(old(State())) + Kept(State())
      ensures live.Some? ==> |live.value| < 50 * 1024 * 1024
      ensures if old(live).Some? && |old(live).value| >= 50 * 1024 * 1024 then
                && (live == if created then Some("") else None) && 1 in slots && slots[1] == old(live).value
                && forall i: nat | i != 1 ::
                     && (i in slots <==> 2 <= i <= 5 && i - 1 in old(slots))
                     && (i in slots ==> slots[i] == old(slots)[i - 1])
              else live == old(live) && slots == old(slots)
    {
      if live.None? || |live.value| < MAX_LOG_SIZE {
        RotateKept(State(), created);
        return;
      }
      ghost var before := slots;
      var i := MAX_LOG_ROTATION;
      while i >= 1
        invariant 0 <= i <= MAX_LOG_ROTATION && live == old(live)
        invariant slots == if i == MAX_LOG_ROTATION then before else PartlyUp(before, i)
      {
        if i == MAX_LOG_ROTATION {
          slots := slots - {i};
          FifthGone(before);
        } else {
          slots := Rename(slots, i, i + 1);
          OneMoreUp(before, i);
        }
        i := i - 1;
      }
      slots := slots[1 := live.value];
      live := if created then Some("") else None;
      AllUp(State(), old(State()), created);
      RotateKept(old(State()), created);
    }
  }

  ghost predicate Numbered(slots: map<nat, string>) {
    forall i | i in slots :: 1 <= i <= MAX_LOG_ROTATION
  }

  /** The numbers above i + 1 hold what was one below them, i + 1 is free, the others are untouched. */
  function PartlyUp(before: map<nat, string>, i: nat): map<nat, string> {
    map j | j in {1, 2, 3, 4, 5} && TakenAt(before, i, j) :: if j <= i then before[j] else before[j - 1]
  }

  predicate TakenAt(before: map<nat, string>, i: nat, j: nat) {
    (j <= i && j in before) || (j >= i + 2 && j - 1 in before)
  }

  lemma FifthGone(before: map<nat, string>)
    requires Numbered(before)
    ensures before - {MAX_LOG_ROTATION} == PartlyUp(before, MAX_LOG_ROTATION - 1)
  {
  }

  lemma OneMoreUp(before: map<nat, string>, i: nat)
    requires Numbered(before) && 1 <= i < MAX_LOG_ROTATION
    ensures Rename(PartlyUp(before, i), i, i + 1) == PartlyUp(before, i - 1)
  {
  }

  lemma AllUp(f: Files, before: Files, created: bool)
    requires Due(before) && Numbered(before.slots)
    requires f.slots == PartlyUp(before.slots, 0)[1 := before.live.value]
    requires f.live == if created then Some("") else None
    ensures f == Rotated(before, created)
  {
    assert f.slots == Rotated(before, created).slots;
  }

  // ---------------------------------------------------------------- Runs

  function Appended(f: Files, text: string): Files {
    f.(live := Some(if f.live.Some? then f.live.value + text else text))
  }

  datatype Action = Append(text: string) | Rotate(created: bool)

  function Apply(f: Files, a: Action): Files {
    match a
    case Append(text) => Appended(f, text)
    case Rotate(created) => Rotated(f, created)
  }

  function Exec(acts: seq<Action>): Files {
    if acts == [] then Files(None, map[]) else Apply(Exec(acts[..|acts| - 1]), acts[|acts| - 1])
  }

  function Written(acts: seq<Action>): string {
    if acts == [] then ""
    else Written(acts[..|acts| - 1]) + TextOf(acts[|acts| - 1])
  }

  function TextOf(a: Action): string {
    if a.Append? then a.text else ""
  }

  /** The numbered files from the oldest to the newest. */
  function Older(slots: map<nat, string>, n: nat): string {
    if n == 0 then "" else (if n in slots then slots[n] else "") + Older(slots, n - 1)
  }

  /** Everything still on disk, oldest first. */
  function Kept(f: Files): string {
    Older(f.slots, MAX_LOG_ROTATION) + if f.live.Some? then f.live.value else ""
  }

  /** Occupied numbers run from 1 without a gap, and each rotated file is full. */
  ghost predicate Tidy(f: Files) {
    && (forall i | i in f.slots :: 1 <= i <= MAX_LOG_ROTATION && |f.slots[i]| >= MAX_LOG_SIZE)
    && (forall i | i in f.slots && i > 1 :: i - 1 in f.slots)
  }

  /** The text a rotation gives up: the content of the fifth file. */
  function Dropped(f: Files): string {
    if Due(f) && MAX_LOG_ROTATION in f.slots then f.slots[MAX_LOG_ROTATION] else ""
  }

  function GivenUp(f: Files, a: Action): string {
    if a.Rotate? then Dropped(f) else ""
  }

  /** Everything a run has given up, oldest first. */
  function Lost(acts: seq<Action>): string {
    if acts == [] then "" else Lost(acts[..|acts| - 1]) + GivenUp(Exec(acts[..|acts| - 1]), acts[|acts| - 1])
  }

  /** All five numbers are taken. */
  ghost predicate Full(f: Files) {
    forall i | 1 <= i <= MAX_LOG_ROTATION :: i in f.slots
  }

  lemma TidyStep(f: Files, a: Action)
    requires Tidy(f)
    ensures Tidy(Apply(f, a)) && (Full(f) ==> Full(Apply(f, a)))
    ensures a.Rotate? && Dropped(f) != "" ==> Full(Apply(f, a))
  {
    if a.Rotate? && Due(f) && MAX_LOG_ROTATION in f.slots { AllFiveAbove(f); }
  }

  /** One step loses nothing but what it drops. */
  lemma KeptStep(f: Files, a: Action)
    ensures Kept(f) + TextOf(a) == GivenUp(f, a) + Kept(Apply(f, a))
  {
    match a
    case Append(text) => AppendKept(f, text);
    case Rotate(created) => RotateKept(f, created);
  }

  lemma AppendKept(f: Files, text: string)
    ensures Kept(f) + text == Kept(Appended(f, text))
  {
    var older, live := Older(f.slots, MAX_LOG_ROTATION), if f.live.Some? then f.live.value else "";
    assert older + live + text == older + (live + text);
  }

  lemma RotateKept(f: Files, created: bool)
    ensures Kept(f) == Dropped(f) + Kept(Rotated(f, created))
  {
    if Due(f) {
      ShiftedOlder(f, created, MAX_LOG_ROTATION);
      OlderFifth(f);
      var dropped, older, live := Dropped(f), Older(f.slots, MAX_LOG_ROTATION - 1), f.live.value;
      assert (dropped + older) + live == dropped + (older + live);
    }
  }

  lemma Regroup(lost: string, kept: string, text: string, dropped: string, keptAfter: string)
    requires kept + text == dropped + keptAfter
    ensures lost + kept + text == lost + dropped + keptAfter
  {
    assert lost + kept + text == lost + (kept + text);
    assert lost + dropped + keptAfter == lost + (dropped + keptAfter);
  }

  lemma OlderFifth(f: Files)
    requires Due(f)
    ensures Older(f.slots, MAX_LOG_ROTATION) == Dropped(f) + Older(f.slots, MAX_LOG_ROTATION - 1)
  {
  }

  lemma {:induction false} ShiftedOlder(f: Files, created: bool, n: nat)
    requires Due(f) && 1 <= n <= MAX_LOG_ROTATION
    ensures Older(Rotated(f, created).slots, n) == Older(f.slots, n - 1) + f.live.value
  {
    var g := Rotated(f, created);
    if n == 1 {
      assert Older(g.slots, 0) == "";
    } else {
      ShiftedOlder(f, created, n - 1);
    }
  }

  lemma {:induction false} FullSlots(slots: map<nat, string>, n: nat)
    requires forall i | 1 <= i <= n :: i in slots && |slots[i]| >= MAX_LOG_SIZE
    ensures |Older(slots, n)| >= n * MAX_LOG_SIZE
  {
    if n > 0 { FullSlots(slots, n - 1); }
  }

  /** Over any sequence of appends and rotations the files concatenate to a suffix of everything written,
      occupied numbers are contiguous from 1, and once anything at all has been given up at least five
      full logs are still there. */
  lemma {:induction false} RotationKeepsASuffix(acts: seq<Action>)
    ensures Written(acts) == Lost(acts) + Kept(Exec(acts))
    ensures Tidy(Exec(acts))
    ensures Lost(acts) != "" ==> Full(Exec(acts)) && |Kept(Exec(acts))| >= MAX_LOG_ROTATION * MAX_LOG_SIZE
    decreases |acts|
  {
    if acts == [] {
      EmptyOlder(MAX_LOG_ROTATION);
    } else {
      var front, a := acts[..|acts| - 1], acts[|acts| - 1];
      RotationKeepsASuffix(front);
      TidyStep(Exec(front), a);
      KeptStep(Exec(front), a);
      Regroup(Lost(front), Kept(Exec(front)), TextOf(a), GivenUp(Exec(front), a), Kept(Exec(acts)));
      if Lost(acts) != "" { FullIsLong(Exec(acts)); }
    }
  }

  lemma FullIsLong(f: Files)
    requires Tidy(f) && Full(f)
    ensures |Kept(f)| >= MAX_LOG_ROTATION * MAX_LOG_SIZE
  {
    FullSlots(f.slots, MAX_LOG_ROTATION);
  }

  lemma AllFiveAbove(f: Files)
    requires Tidy(f) && MAX_LOG_ROTATION in f.slots
    ensures forall i | 1 <= i <= MAX_LOG_ROTATION :: i in f.slots
  {
    assert 4 in f.slots && 3 in f.slots && 2 in f.slots && 1 in f.slots;
  }

  lemma {:induction false} EmptyOlder(n: nat)
    ensures Older(map[], n) == ""
  {
    if n > 0 { EmptyOlder(n - 1); }
  }
}
