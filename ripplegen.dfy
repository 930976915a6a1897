/**
 * The vanity-seed search of RippleGen: starting from a random 128-bit key,
 * derive an account identifier from each key in turn (the key, then the key
 * plus one, wrapping at 2^128) until one begins with the requested pattern,
 * reporting progress every 10000 candidates, and finally report the master
 * seed that produced the matching identifier.
 *
 * The cryptographic derivation of an account identifier from a seed is a
 * pure function passed in as `derive`; the random starting key is the
 * parameter `start`.
 */
module RippleGen {

  // ---------------------------------------------------------------------
  // Candidate keys: the source's `uint128`
  // ---------------------------------------------------------------------

  /** The number of distinct 128-bit keys. */
  const KeySpace: nat := 0x1_0000_0000_0000_0000_0000_0000_0000_0000

  /** A value of a 128-bit unsigned integer. */
  type Key = k: nat | k < KeySpace

  /** `key++` on a 128-bit key: add one, wrapping to zero at 2^128. */
  function Inc(k: Key): (r: Key)
    ensures r == (k + 1) % KeySpace
    ensures r == 0 <==> k == KeySpace - 1
  {
    if k == KeySpace - 1 then 0 else k + 1
  }

  /** The candidate tested in iteration `i` (counting from 0) of a search started at `start`. */
  function Candidate(start: Key, i: nat): Key
  {
    (start + i) % KeySpace
  }

  /** The key held by the sequencer after `n` increments of `start`. */
  function Advance(start: Key, n: nat): Key
  {
    if n == 0 then start else Inc(Advance(start, n - 1))
  }

  /** Incrementing the i-th candidate gives the (i+1)-th, across the wrap as well. */
  lemma CandidateSucc(start: Key, i: nat)
    ensures Inc(Candidate(start, i)) == Candidate(start, i + 1)
  {
  }

  /** Calling the sequencer `n` times from `start` yields `start + n` modulo 2^128. */
  lemma {:induction false} AdvanceIsCandidate(start: Key, n: nat)
    ensures Advance(start, n) == Candidate(start, n)
  {
    if n > 0 {
      AdvanceIsCandidate(start, n - 1);
      CandidateSucc(start, n - 1);
    }
  }

  /** Fewer than 2^128 increments never bring the sequencer back to a key it already produced. */
  lemma CandidatesDistinct(start: Key, i: nat, j: nat)
    requires i < j < i + KeySpace
    ensures Candidate(start, i) != Candidate(start, j)
  {
  }

  // ---------------------------------------------------------------------
  // The exit test: a prefix match with `std::string::substr` semantics
  // ---------------------------------------------------------------------

  /** `s.substr(0, n)`: the first `n` characters of `s`, or all of `s` when it is shorter. */
  function Head(s: string, n: nat): (r: string)
    ensures |r| == if n <= |s| then n else |s|
    ensures r <= s
  {
    if n <= |s| then s[..n] else s
  }

  /** The loop's exit condition: `accountId.substr(0, pattern.size()) == pattern`. */
  predicate Matches(accountId: string, pattern: string)
  {
    Head(accountId, |pattern|) == pattern
  }

  /** The exit test holds exactly when `pattern` is a prefix of the identifier. */
  lemma MatchesIffPrefix(accountId: string, pattern: string)
    ensures Matches(accountId, pattern) <==> pattern <= accountId
  {
  }

  /** An identifier shorter than the pattern never matches: `substr` returns it whole. */
  lemma ShorterNeverMatches(accountId: string, pattern: string)
    requires |accountId| < |pattern|
    ensures !Matches(accountId, pattern)
  {
  }

  /** The empty pattern matches every identifier. */
  lemma EmptyPatternMatchesAll(accountId: string)
    ensures Matches(accountId, [])
  {
  }

  // ---------------------------------------------------------------------
  // Progress output
  // ---------------------------------------------------------------------

  /** A progress line is printed whenever the count of tested seeds is a multiple of this. */
  const ProgressInterval: nat := 10000

  /** The counts that progress lines report once `n` candidates have been tested, in order. */
  function ProgressMarks(n: nat): seq<nat>
  {
    if n == 0 then []
    else ProgressMarks(n - 1) + (if n % ProgressInterval == 0 then [n] else [])
  }

  /**
   * After `n` candidates exactly `n / 10000` progress lines have been printed,
   * and the k-th of them reports `(k + 1) * 10000` tested seeds.
   */
  lemma {:induction false} ProgressMarksClosedForm(n: nat)
    ensures |ProgressMarks(n)| == n / ProgressInterval
    ensures forall k :: 0 <= k < |ProgressMarks(n)| ==> ProgressMarks(n)[k] == (k + 1) * ProgressInterval
  {
    if n > 0 {
      ProgressMarksClosedForm(n - 1);
      var q, r := (n - 1) / ProgressInterval, (n - 1) % ProgressInterval;
      assert n - 1 == q * ProgressInterval + r;
      if r == ProgressInterval - 1 {
        assert n == (q + 1) * ProgressInterval;
        assert n % ProgressInterval == 0 && n / ProgressInterval == q + 1;
      } else {
        assert n == q * ProgressInterval + (r + 1);
        assert n % ProgressInterval != 0 && n / ProgressInterval == q;
      }
    }
  }

  // ---------------------------------------------------------------------
  // The search
  // ---------------------------------------------------------------------

  /** What the program prints at the end: the master seed and the matching account identifier. */
  datatype Report = Report(masterSeed: Key, accountId: string)

  /** What `main` does with its command line. */
  datatype Outcome = Usage | Done(report: Report, progress: seq<nat>)

  /**
   * The index of the first candidate at or after `from` whose identifier
   * matches `pattern`, given that candidate `bound` matches.
   */
  function FirstMatch(pattern: string, start: Key, derive: Key -> string, from: nat, bound: nat): (r: nat)
    requires from <= bound
    requires Matches(derive(Candidate(start, bound)), pattern)
    ensures from <= r <= bound
    ensures Matches(derive(Candidate(start, r)), pattern)
    ensures forall i :: from <= i < r ==> !Matches(derive(Candidate(start, i)), pattern)
    decreases bound - from
  {
    if Matches(derive(Candidate(start, from)), pattern) then from
    else FirstMatch(pattern, start, derive, from + 1, bound)
  }

  /** The first match does not depend on which matching candidate witnesses that one exists. */
  lemma FirstMatchWitnessIrrelevant(pattern: string, start: Key, derive: Key -> string, b1: nat, b2: nat)
    requires Matches(derive(Candidate(start, b1)), pattern)
    requires Matches(derive(Candidate(start, b2)), pattern)
    ensures FirstMatch(pattern, start, derive, 0, b1) == FirstMatch(pattern, start, derive, 0, b2)
  {
    var r1 := FirstMatch(pattern, start, derive, 0, b1);
    var r2 := FirstMatch(pattern, start, derive, 0, b2);
    assert !(r1 < r2) && !(r2 < r1);
  }

  /** With the empty pattern the very first candidate is the match. */
  lemma EmptyPatternStopsAtFirst(start: Key, derive: Key -> string, bound: nat)
    requires Matches(derive(Candidate(start, bound)), [])
    ensures FirstMatch([], start, derive, 0, bound) == 0
  {
    EmptyPatternMatchesAll(derive(Candidate(start, 0)));
  }

  /** The facts the search loop holds when it stops, restated as the search's promises. */
  lemma SearchExit(pattern: string, start: Key, derive: Key -> string, bound: nat, count: nat)
    requires 1 <= count <= bound + 1
    requires Matches(derive(Candidate(start, bound)), pattern)
    requires Matches(derive(Candidate(start, count - 1)), pattern)
    requires forall i :: 0 <= i < count - 1 ==> !Matches(derive(Candidate(start, i)), pattern)
    ensures count == FirstMatch(pattern, start, derive, 0, bound) + 1
    ensures Advance(start, count - 1) == Candidate(start, count - 1)
    ensures Candidate(start, count - 1) != Candidate(start, count)
    ensures pattern == [] ==> count == 1
    ensures |ProgressMarks(count)| == count / ProgressInterval
  {
    var first := FirstMatch(pattern, start, derive, 0, bound);
    assert !(first < count - 1);
    AdvanceIsCandidate(start, count - 1);
    CandidatesDistinct(start, count - 1, count);
    if pattern == [] {
      EmptyPatternStopsAtFirst(start, derive, bound);
    }
    ProgressMarksClosedForm(count);
  }

  /**
   * The do-while loop of `main`: derive an identifier from the current key,
   * count it, report progress every 10000 candidates, increment the key, and
   * stop at the first identifier that starts with `pattern`.
   *
   * The ghost `bound` names a candidate that matches, i.e. a run that ends.
   */
  method Search(pattern: string, start: Key, derive: Key -> string, ghost bound: nat)
    returns (report: Report, count: nat, progress: seq<nat>)
    requires Matches(derive(Candidate(start, bound)), pattern)
    ensures count >= 1
    ensures count == FirstMatch(pattern, start, derive, 0, bound) + 1
    ensures report.masterSeed == Candidate(start, count - 1) == Advance(start, count - 1)
    ensures report.masterSeed != Candidate(start, count)
    ensures report.accountId == derive(report.masterSeed)
    ensures Matches(report.accountId, pattern)
    ensures forall i :: 0 <= i < count - 1 ==> !Matches(derive(Candidate(start, i)), pattern)
    ensures pattern == [] ==> count == 1
    ensures progress == ProgressMarks(count)
    ensures |progress| == count / ProgressInterval
  {
    var key := start;
    count := 0;
    progress := [];
    while true
      invariant count <= bound
      invariant key == Candidate(start, count)
      invariant forall i :: 0 <= i < count ==> !Matches(derive(Candidate(start, i)), pattern)
      invariant progress == ProgressMarks(count)
      decreases bound - count
    {
      var seed := key;
      var accountId := derive(seed);
      count := count + 1;
      if count % ProgressInterval == 0 {
        progress := progress + [count];
      }
      CandidateSucc(start, count - 1);
      key := Inc(key);
      if Matches(accountId, pattern) {
        report := Report(seed, accountId);
        SearchExit(pattern, start, derive, bound, count);
        return;
      }
    }
  }

  /**
   * `main(argc, argv)`: with fewer than two arguments print usage and return 0;
   * otherwise search for `args[1]` from the key `start` and return 0.
   */
  method Run(args: seq<string>, start: Key, derive: Key -> string, ghost bound: nat)
    returns (outcome: Outcome, exitCode: int)
    requires |args| >= 2 ==> Matches(derive(Candidate(start, bound)), args[1])
    ensures exitCode == 0
    ensures outcome.Usage? <==> |args| < 2
    ensures outcome.Done? ==>
      var first := FirstMatch(args[1], start, derive, 0, bound);
      && outcome.report.masterSeed == Candidate(start, first)
      && outcome.report.accountId == derive(outcome.report.masterSeed)
      && Matches(outcome.report.accountId, args[1])
      && outcome.progress == ProgressMarks(first + 1)
  {
    if |args| < 2 {
      return Usage, 0;
    }
    var pattern := args[1];
    var report, count, progress := Search(pattern, start, derive, bound);
    outcome := Done(report, progress);
    exitCode := 0;
  }
}
