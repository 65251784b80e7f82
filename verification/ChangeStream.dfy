/** gosrc/database/mongo.go: the duplicate guard of the change-stream loop. */
module ChangeStream {
  /** Seconds. */
  const DEDUP_WINDOW: nat := 60

  /** A decoded event, with the clock when the loop looks at it and, a moment later, when it stores it. */
  datatype Event = Event(repo: string, commit: string, seenAt: nat, storedAt: nat)

  /** Crashed: the log line of a skipped event slices the first eight characters of the commit hash, so a
      shorter hash ends the process. */
  datatype Verdict = Processed | Skipped | Crashed

  /** One pass of the loop over `events`, with the digest that shortens the keys of the map. */
  class WatchLoop {
    var recentDeploys: map<string, nat>

    constructor ()
      ensures recentDeploys == map[]
    {
      recentDeploys := map[];
    }

    method Handle(digest: string -> string, e: Event) returns (v: Verdict)
      modifies this
      ensures v == Judge(digest, old(recentDeploys), e)
      ensures recentDeploys == Remember(digest, old(recentDeploys), e)
    {
      if e.commit != "" {
        var dedupKey := digest(e.repo + ":" + e.commit);
        if dedupKey in recentDeploys {
          if e.seenAt - recentDeploys[dedupKey] < DEDUP_WINDOW {
            if |e.commit| < 8 { return Crashed; }
            return Skipped;
          }
        }
        recentDeploys := recentDeploys[dedupKey := e.storedAt];
      }
      return Processed;
    }

    /** The verdicts on a whole stream; a crash ends it. */
    method Watch(digest: string -> string, events: seq<Event>) returns (verdicts: seq<Verdict>)
      requires recentDeploys == map[]
      modifies this
      ensures verdicts == Verdicts(digest, events)
    {
      verdicts := [];
      for i := 0 to |events|
        invariant recentDeploys == Memory(digest, events[..i])
        invariant verdicts == Verdicts(digest, events[..i]) && Crashed !in verdicts
      {
        assert events[..i + 1][..i] == events[..i];
        var v := Handle(digest, events[i]);
        verdicts := verdicts + [v];
        if v == Crashed {
          CrashEnds(digest, events, i + 1);
          return;
        }
      }
      assert events[..|events|] == events;
    }
  }

  function Key(digest: string -> string, e: Event): string {
    digest(e.repo + ":" + e.commit)
  }

  predicate Recent(digest: string -> string, memory: map<string, nat>, e: Event) {
    && e.commit != "" && Key(digest, e) in memory
    && e.seenAt - memory[Key(digest, e)] < DEDUP_WINDOW
  }

  function Judge(digest: string -> string, memory: map<string, nat>, e: Event): Verdict {
    if !Recent(digest, memory, e) then Processed else if |e.commit| < 8 then Crashed else Skipped
  }

  function Remember(digest: string -> string, memory: map<string, nat>, e: Event): map<string, nat> {
    if e.commit != "" && !Recent(digest, memory, e) then memory[Key(digest, e) := e.storedAt] else memory
  }

  function Memory(digest: string -> string, events: seq<Event>): map<string, nat> {
    if events == [] then map[] else Remember(digest, Memory(digest, events[..|events| - 1]), events[|events| - 1])
  }

  /** One verdict per event, up to and including the first crash. */
  function Verdicts(digest: string -> string, events: seq<Event>): (vs: seq<Verdict>)
    ensures |vs| <= |events|
    ensures Crashed !in vs ==> |vs| == |events|
    ensures forall i | 0 <= i < |vs| - 1 :: vs[i] != Crashed
  {
    if events == [] then []
    else
      var front := events[..|events| - 1];
      var before := Verdicts(digest, front);
      if Crashed in before then before else before + [Judge(digest, Memory(digest, front), events[|events| - 1])]
  }

  lemma {:induction false} CrashEnds(digest: string -> string, events: seq<Event>, n: nat)
    requires n <= |events| && Crashed in Verdicts(digest, events[..n])
    ensures Verdicts(digest, events) == Verdicts(digest, events[..n])
    decreases |events|
  {
    if n < |events| {
      assert events[..|events| - 1][..n] == events[..n];
      CrashEnds(digest, events[..|events| - 1], n);
    } else {
      assert events[..n] == events;
    }
  }

  // ---------------------------------------------------------------- Over whole streams

  /** The clock never runs backwards. */
  ghost predicate Timed(events: seq<Event>) {
    && (forall i | 0 <= i < |events| :: events[i].seenAt <= events[i].storedAt)
    && (forall i, j | 0 <= i < j < |events| :: events[i].storedAt <= events[j].seenAt)
  }

  ghost predicate ProcessedAt(digest: string -> string, events: seq<Event>, i: int) {
    0 <= i < |Verdicts(digest, events)| && Verdicts(digest, events)[i] == Processed && events[i].commit != ""
  }

  /** What event i was judged by. */
  lemma {:induction false} VerdictAt(digest: string -> string, events: seq<Event>, i: nat)
    requires i < |Verdicts(digest, events)|
    ensures Verdicts(digest, events)[i] == Judge(digest, Memory(digest, events[..i]), events[i])
    ensures forall k | 0 <= k < i :: Verdicts(digest, events)[k] != Crashed
    decreases |events|
  {
    var front := events[..|events| - 1];
    if i < |Verdicts(digest, front)| {
      VerdictAt(digest, front, i);
      assert front[..i] == events[..i];
    } else {
      assert front == events[..i];
    }
  }

  /** Event i left its time in the memory. */
  ghost predicate Stored(digest: string -> string, events: seq<Event>, i: int)
  {
    0 <= i < |events| && events[i].commit != "" && !Recent(digest, Memory(digest, events[..i]), events[i])
  }

  lemma StoredIsProcessed(digest: string -> string, events: seq<Event>, i: nat)
    requires i < |Verdicts(digest, events)|
    ensures Stored(digest, events, i) <==> ProcessedAt(digest, events, i)
  {
    VerdictAt(digest, events, i);
  }

  /** The memory holds, for each key, the time of the last processed event with that key. */
  lemma {:induction false} MemoryIsLastStored(digest: string -> string, events: seq<Event>, n: nat, key: string)
    returns (last: int)
    requires n <= |events|
    ensures -1 <= last < n
    ensures key in Memory(digest, events[..n]) <==> last >= 0
    ensures last >= 0 ==> Stored(digest, events, last) && Key(digest, events[last]) == key
                          && Memory(digest, events[..n])[key] == events[last].storedAt
    ensures forall k | last < k < n && Stored(digest, events, k) :: Key(digest, events[k]) != key
  {
    if n == 0 {
      last := -1;
    } else {
      assert events[..n][..n - 1] == events[..n - 1];
      last := MemoryIsLastStored(digest, events, n - 1, key);
      if Stored(digest, events, n - 1) && Key(digest, events[n - 1]) == key {
        last := n - 1;
      }
    }
  }

  /** An event without a commit passes the guard, and leaves the memory as it is. */
  lemma NoCommitNoGuard(digest: string -> string, events: seq<Event>, i: nat)
    requires i < |Verdicts(digest, events)| && events[i].commit == ""
    ensures Verdicts(digest, events)[i] == Processed
    ensures Memory(digest, events[..i + 1]) == Memory(digest, events[..i])
  {
    VerdictAt(digest, events, i);
    assert events[..i + 1][..i] == events[..i];
  }

  /** Two processed events with the same repository and the same non-empty commit are at least a window
      apart, from the storing of the first to the arrival of the second. */
  lemma ProcessedAreApart(digest: string -> string, events: seq<Event>, i: nat, j: nat)
    requires Timed(events) && i < j
    requires ProcessedAt(digest, events, i) && ProcessedAt(digest, events, j)
    requires events[i].repo == events[j].repo && events[i].commit == events[j].commit
    ensures events[j].seenAt - events[i].storedAt >= DEDUP_WINDOW
  {
    StoredIsProcessed(digest, events, i);
    StoredIsProcessed(digest, events, j);
    var last := MemoryIsLastStored(digest, events, j, Key(digest, events[j]));
    assert Key(digest, events[i]) == Key(digest, events[j]);
    assert last == i || (last > i && events[i].storedAt <= events[last].seenAt <= events[last].storedAt);
  }

  ghost predicate Injective(digest: string -> string) {
    forall a, b | digest(a) == digest(b) :: a == b
  }

  /** With an injective digest two events have the same key exactly if repository, colon and commit make up the
      same text. Where the commits have no colon, that means the same repository and the same commit. */
  lemma SameKeyExactly(digest: string -> string, e: Event, f: Event)
    requires Injective(digest)
    ensures Key(digest, e) == Key(digest, f) <==> e.repo + ":" + e.commit == f.repo + ":" + f.commit
    ensures ':' !in e.commit && ':' !in f.commit ==>
              (Key(digest, e) == Key(digest, f) <==> e.repo == f.repo && e.commit == f.commit)
  {
    if ':' !in e.commit && ':' !in f.commit && e.repo + ":" + e.commit == f.repo + ":" + f.commit {
      LastColon(e.repo, e.commit, f.repo, f.commit);
    }
  }

  lemma LastColon(a: string, b: string, c: string, d: string)
    requires a + ":" + b == c + ":" + d && ':' !in b && ':' !in d
    ensures a == c && b == d
  {
    var s, t := a + ":" + b, c + ":" + d;
    assert forall n | |a| < n < |s| :: s[n] == b[n - |a| - 1];
    assert forall n | |c| < n < |t| :: t[n] == d[n - |c| - 1];
    assert s[|a|] == ':' && t[|c|] == ':';
    assert a == s[..|a|] && c == t[..|c|] && b == s[|a| + 1..] && d == t[|c| + 1..];
  }

  /** The colon matters: under every digest these two different events have the same key. */
  lemma ColonsCollide(digest: string -> string)
    ensures Key(digest, Event("a", "b:c", 0, 0)) == Key(digest, Event("a:b", "c", 0, 0))
  {
    assert "a" + ":" + "b:c" == "a:b" + ":" + "c";
  }

  /** A skipped event follows a processed one with the same key by less than a window, and nothing with
      that key was processed in between. If the digest is injective and the commits have no colon, that was the
      same commit of the same repository. */
  lemma SkippedIsCovered(digest: string -> string, events: seq<Event>, j: nat) returns (i: nat)
    requires j < |Verdicts(digest, events)| && Verdicts(digest, events)[j] != Processed
    ensures i < j && ProcessedAt(digest, events, i) && Key(digest, events[i]) == Key(digest, events[j])
    ensures Injective(digest) && ':' !in events[i].commit && ':' !in events[j].commit ==>
              events[i].repo == events[j].repo && events[i].commit == events[j].commit
    ensures events[j].seenAt - events[i].storedAt < DEDUP_WINDOW
    ensures forall k | i < k < j && ProcessedAt(digest, events, k) :: Key(digest, events[k]) != Key(digest, events[j])
  {
    VerdictAt(digest, events, j);
    i := MemoryIsLastStored(digest, events, j, Key(digest, events[j]));
    StoredIsProcessed(digest, events, i);
    if Injective(digest) { SameKeyExactly(digest, events[i], events[j]); }
    forall k | i < k < j && ProcessedAt(digest, events, k) ensures Key(digest, events[k]) != Key(digest, events[j]) {
      StoredIsProcessed(digest, events, k);
    }
  }

  ghost predicate Duplicate(digest: string -> string, events: seq<Event>, j: int) {
    0 <= j < |events| && Recent(digest, Memory(digest, events[..j]), events[j])
  }

  /** The loop survives a stream exactly when every duplicate inside a window has a hash of at least eight
      characters. */
  lemma SurvivesExactly(digest: string -> string, events: seq<Event>)
    ensures Crashed !in Verdicts(digest, events) <==>
              forall j | Duplicate(digest, events, j) :: |events[j].commit| >= 8
  {
    var vs := Verdicts(digest, events);
    forall j | 0 <= j < |vs| ensures vs[j] == Crashed <==> Duplicate(digest, events, j) && |events[j].commit| < 8 {
      VerdictAt(digest, events, j);
    }
  }

  /** It does happen: the same short hash twice within a second. */
  lemma ShortHashCrashes(digest: string -> string)
    ensures Verdicts(digest, [Event("repo", "abc", 0, 0), Event("repo", "abc", 1, 1)]) == [Processed, Crashed]
  {
    var first, second := Event("repo", "abc", 0, 0), Event("repo", "abc", 1, 1);
    assert [first, second][..1] == [first] && [first][..0] == [];
    assert Verdicts(digest, []) == [] && Memory(digest, []) == map[];
    assert Verdicts(digest, [first]) == [Processed];
    assert Memory(digest, [first]) == map[Key(digest, first) := 0];
  }
}
