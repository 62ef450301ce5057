/**
 * Candidate identifiers and the pressure-bounded drain of a candidate source.
 *
 * Both result lists walk a single-pass source of candidates, take each
 * candidate's id, skip ids without the `tree:tiger:` scheme, and submit the
 * rest (prefix removed) to the asset-resolution service, one slot per
 * submission. `Pump` is that walk as a function of the source and the
 * position reached; the loops in the two `ResultList` classes are proved
 * against it, and `Submissions` is the reference it is compared with.
 */
module TigerIds {

  const Prefix: string := "tree:tiger:"

  /** `id.startswith('tree:tiger:')`: the id is the prefix followed by something. */
  predicate IsTiger(id: string): (tagged: bool)
    ensures tagged <==> exists rest :: Prefix + rest == id
  {
    assert |Prefix| <= |id| && id[..|Prefix|] == Prefix ==> Prefix + id[|Prefix|..] == id;
    |Prefix| <= |id| && id[..|Prefix|] == Prefix
  }

  /** `id[len('tree:tiger:'):]`, the fingerprint sent to the resolver. */
  function Strip(id: string): (fingerprint: string)
    requires IsTiger(id)
    ensures Prefix + fingerprint == id
    ensures |fingerprint| == |id| - |Prefix|
  {
    assert id == id[..|Prefix|] + id[|Prefix|..];
    id[|Prefix|..]
  }

  /** A tagged id always passes the scheme test, and stripping gives back the fingerprint. */
  lemma TagThenStrip(fingerprint: string)
    ensures IsTiger(Prefix + fingerprint) && Strip(Prefix + fingerprint) == fingerprint
  {
    assert (Prefix + fingerprint)[..|Prefix|] == Prefix;
  }

  /** One call of the resolver: the fingerprint, and the key the completion callback gets back. */
  datatype Submission<K> = Submission(fingerprint: string, key: K)

  /** The submission made for candidate `c`, if its id has the scheme. */
  function SubmissionFor<T>(c: T, idOf: T -> string): seq<Submission<T>>
  {
    if IsTiger(idOf(c)) then [Submission(Strip(idOf(c)), c)] else []
  }

  /**
   * Reference definition: the submissions made for the first `n` candidates
   * of the source, in source order, one per candidate with a tagged id.
   */
  function Submissions<T>(src: seq<T>, n: nat, idOf: T -> string): seq<Submission<T>>
    requires n <= |src|
  {
    if n == 0 then [] else Submissions(src, n - 1, idOf) + SubmissionFor(src[n - 1], idOf)
  }

  /**
   * Every submission is for one of those candidates whose id has the scheme,
   * and sends that id with the prefix removed; there are at most `n` of them.
   */
  lemma {:induction false} SubmissionsAreTagged<T>(src: seq<T>, n: nat, idOf: T -> string)
    requires n <= |src|
    ensures |Submissions(src, n, idOf)| <= n
    ensures forall s :: s in Submissions(src, n, idOf) ==>
              s.key in src[..n] && IsTiger(idOf(s.key)) && Prefix + s.fingerprint == idOf(s.key)
  {
    if n > 0 {
      SubmissionsAreTagged(src, n - 1, idOf);
      assert src[..n] == src[..n - 1] + [src[n - 1]];
    }
  }

  /** A candidate whose id lacks the scheme is never the key of a submission. */
  lemma UntaggedNeverSubmitted<T>(src: seq<T>, n: nat, c: T, idOf: T -> string)
    requires n <= |src| && !IsTiger(idOf(c))
    ensures forall s :: s in Submissions(src, n, idOf) ==> s.key != c
  {
    SubmissionsAreTagged(src, n, idOf);
  }

  /** Where a drain stopped, what it submitted, and how many slots it left. */
  datatype Pumped<T> = Pumped(next: nat, sent: seq<Submission<T>>, slots: int)

  /**
   * The drain loop from position `at`: while slots remain and the source is
   * not exhausted, take the next candidate; skip it if its id lacks the
   * scheme, otherwise submit it and use up one slot.
   */
  function Pump<T>(src: seq<T>, at: nat, slots: int, idOf: T -> string): (r: Pumped<T>)
    requires at <= |src|
    ensures at <= r.next <= |src|
    decreases |src| - at
  {
    if slots <= 0 || at == |src| then Pumped(at, [], slots)
    else
      var now := SubmissionFor(src[at], idOf);
      var tail := Pump(src, at + 1, slots - |now|, idOf);
      Pumped(tail.next, now + tail.sent, tail.slots)
  }

  /**
   * The counter: a drain with no slot does nothing; otherwise it uses one slot
   * per submission, never goes below zero, and stops only when the slots or
   * the candidates run out.
   */
  lemma {:induction false} PumpBounds<T>(src: seq<T>, at: nat, slots: int, idOf: T -> string)
    requires at <= |src|
    ensures var r := Pump(src, at, slots, idOf);
            && (slots <= 0 ==> r == Pumped(at, [], slots))
            && (slots > 0 ==> 0 <= r.slots && r.slots + |r.sent| == slots)
            && (slots > 0 ==> r.slots == 0 || r.next == |src|)
    decreases |src| - at
  {
    if slots > 0 && at < |src| {
      PumpBounds(src, at + 1, slots - |SubmissionFor(src[at], idOf)|, idOf);
    }
  }

  /**
   * A drain submits exactly the tagged candidates among those it consumed,
   * in order: resumed at `at`, it extends the submissions for the first `at`
   * candidates to those for every candidate up to where it stopped.
   */
  lemma {:induction false} PumpExtendsLog<T>(src: seq<T>, at: nat, slots: int, idOf: T -> string)
    requires at <= |src|
    ensures var r := Pump(src, at, slots, idOf);
            Submissions(src, at, idOf) + r.sent == Submissions(src, r.next, idOf)
    decreases |src| - at
  {
    if slots > 0 && at < |src| {
      var now := SubmissionFor(src[at], idOf);
      var tail := Pump(src, at + 1, slots - |now|, idOf);
      PumpExtendsLog(src, at + 1, slots - |now|, idOf);
      assert Submissions(src, at, idOf) + (now + tail.sent) == Submissions(src, at + 1, idOf) + tail.sent;
    }
  }

  /**
   * A drain stops as soon as it may: when it stops before the end of the
   * source, the last candidate it consumed was a submission (the one that
   * used up the last slot), so no candidate is consumed without need.
   */
  lemma {:induction false} PumpStopsOnLastSlot<T>(src: seq<T>, at: nat, slots: int, idOf: T -> string)
    requires at <= |src| && slots > 0
    ensures var r := Pump(src, at, slots, idOf);
            r.next < |src| ==> r.slots == 0 && at < r.next && IsTiger(idOf(src[r.next - 1]))
    decreases |src| - at
  {
    if at < |src| {
      var now := SubmissionFor(src[at], idOf);
      if slots - |now| > 0 {
        PumpStopsOnLastSlot(src, at + 1, slots - |now|, idOf);
      }
    }
  }

  /** Skipped candidates cost nothing: a stretch with no tagged id is passed over with every slot kept. */
  lemma {:induction false} PumpSkipsUntagged<T>(src: seq<T>, at: nat, slots: int, idOf: T -> string)
    requires at <= |src| && slots > 0
    requires forall i :: at <= i < |src| ==> !IsTiger(idOf(src[i]))
    ensures Pump(src, at, slots, idOf) == Pumped(|src|, [], slots)
    decreases |src| - at
  {
    if at < |src| {
      PumpSkipsUntagged(src, at + 1, slots, idOf);
    }
  }

  /**
   * Loop invariant of a drain in progress: a drain started at `at0` with
   * `slots0` slots over log `log0` has reached position `next` with `slots`
   * slots and log `log`, and finishing from here gives what the whole drain gives.
   */
  ghost predicate Resumes<T>(src: seq<T>, idOf: T -> string, at0: nat, slots0: int, log0: seq<Submission<T>>,
                             next: nat, slots: int, log: seq<Submission<T>>)
  {
    && at0 <= next <= |src|
    && var whole := Pump(src, at0, slots0, idOf);
       var r := Pump(src, next, slots, idOf);
       r.next == whole.next && log + r.sent == log0 + whole.sent && r.slots == whole.slots
  }

  /** One iteration: consume the next candidate, and submit it if its id has the scheme. */
  lemma ResumesStep<T>(src: seq<T>, idOf: T -> string, at0: nat, slots0: int, log0: seq<Submission<T>>,
                       next: nat, slots: int, log: seq<Submission<T>>)
    requires Resumes(src, idOf, at0, slots0, log0, next, slots, log)
    requires next < |src| && slots > 0
    ensures var c := src[next];
            if IsTiger(idOf(c))
            then Resumes(src, idOf, at0, slots0, log0, next + 1, slots - 1, log + [Submission(Strip(idOf(c)), c)])
            else Resumes(src, idOf, at0, slots0, log0, next + 1, slots, log)
  {
    var c := src[next];
    var now := SubmissionFor(c, idOf);
    var tail := Pump(src, next + 1, slots - |now|, idOf);
    assert log + (now + tail.sent) == (log + now) + tail.sent;
  }

  /** When the loop stops, for want of slots or of candidates, the drain is complete. */
  lemma ResumesDone<T>(src: seq<T>, idOf: T -> string, at0: nat, slots0: int, log0: seq<Submission<T>>,
                       next: nat, slots: int, log: seq<Submission<T>>)
    requires Resumes(src, idOf, at0, slots0, log0, next, slots, log)
    requires slots <= 0 || next == |src|
    ensures var whole := Pump(src, at0, slots0, idOf);
            next == whole.next && log == log0 + whole.sent && slots == whole.slots
  {
  }
}
