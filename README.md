# RippleGen vanity-seed search, modelled in Dafny

RippleGen looks for a seed whose account identifier starts with a pattern the
user chooses (a "vanity" address). Its `main` (`ripplegen.cpp`) does four things:

- It prints usage and returns 0 when no pattern is given.
- Otherwise it draws a random 128-bit key.
- It then runs a do-while loop. Each pass derives the account identifier of the
  current key, counts the candidate, prints a progress line every 10000
  candidates, and increments the key (wrapping at 2^128).
- The loop stops at the first identifier whose first `pattern.size()`
  characters equal the pattern. The program then prints the master seed that
  produced that identifier, and the identifier itself.

`ripplegen.dfy` holds one module, `RippleGen`:

- **Keys.** `Key` is a natural number below 2^128. `Inc` is the wrapping
  `key++`. `Candidate(start, i)` is the i-th key tried, `(start + i) mod 2^128`.
  `Advance` is the same key obtained by incrementing `i` times.
- **Exit test.** `Head` is `std::string::substr(0, n)`. It returns the whole
  string when the string is shorter than `n`. `Matches` is the loop's exit
  condition.
- **Progress output.** This is modelled as the sequence of counts the progress
  lines report (`ProgressMarks`).
- **Search.** `Search` is the do-while loop, as a method with a `while` loop and
  invariants. `FirstMatch` is its reference definition: the index of the first
  matching candidate. `Run` is `main`.

Two external pieces are parameters. The derivation of an account identifier
from a key is the pure function `derive`. It stands for `setSeed`,
`createGeneratorPublic`, `setAccountPublic` and `humanAccountID`, whose header
`RippleAddress.h` is not part of this model. The random starting key is the
parameter `start`.

The program only stops when some candidate matches. Dafny needs every loop to
terminate, so `Search` and `Run` take a ghost index `bound` of a matching
candidate. `bound` is used only to prove termination.
`FirstMatchWitnessIrrelevant` shows that the result does not depend on which
matching candidate `bound` names.

A multi-threaded search engine is sometimes described for this tool. This
model follows `ripplegen.cpp` as written instead:

- The code has one thread. There are no workers, shared counters, termination
  flag, ETA-50 table or thread-count argument.
- The progress interval is 10000, not 1000.
- The pattern is not validated. An empty pattern is accepted, and it matches
  the very first candidate.

## Model

| member | source | states |
|---|---|---|
| `RippleGen.Inc` | ripplegen.cpp:35 | incrementing a 128-bit key adds one modulo 2^128; the result is 0 exactly when the key was 2^128 - 1 |
| `RippleGen.CandidateSucc` | ripplegen.cpp:35 | incrementing the i-th candidate key gives the (i+1)-th, across the 2^128 wrap too |
| `RippleGen.AdvanceIsCandidate` | ripplegen.cpp:24-25 | after n increments of the random start key the key is `(start + n) mod 2^128` |
| `RippleGen.CandidatesDistinct` | ripplegen.cpp:24-35 | fewer than 2^128 increments never give back a key that was already tried |
| `RippleGen.Head` | ripplegen.cpp:36 | `substr(0, n)` has length `min(n, size)` and is a prefix of the string |
| `RippleGen.MatchesIffPrefix` | ripplegen.cpp:36 | the exit test holds exactly when the pattern is a prefix of the account identifier (both directions) |
| `RippleGen.ShorterNeverMatches` | ripplegen.cpp:36 | an identifier shorter than the pattern never passes the exit test |
| `RippleGen.EmptyPatternMatchesAll` | ripplegen.cpp:36 | the empty pattern passes the exit test for every identifier |
| `RippleGen.ProgressMarksClosedForm` | ripplegen.cpp:33-34 | after n candidates exactly n / 10000 progress lines were printed, and the k-th reports (k + 1) * 10000 |
| `RippleGen.FirstMatch` | ripplegen.cpp:27-36 | the first candidate index at or after `from` whose identifier matches: it matches, and no earlier index does |
| `RippleGen.FirstMatchWitnessIrrelevant` | ripplegen.cpp:27-36 | the first match is the same whichever matching candidate shows that the search ends |
| `RippleGen.EmptyPatternStopsAtFirst` | ripplegen.cpp:36 | with an empty pattern the first candidate is the match |
| `RippleGen.SearchExit` | ripplegen.cpp:27-36 | when the loop stops after `count` candidates, `count - 1` is the first matching index, its key is the sequencer's key after `count - 1` increments and differs from the incremented `key`, an empty pattern stops after one candidate, and `count / 10000` progress lines were printed |
| `RippleGen.Search` | ripplegen.cpp:15-41 | the loop runs at least once; `count` is one more than the first matching index; candidate i is the key start + i mod 2^128; the reported seed is the key after `count - 1` increments, which produced the match, and differs from the incremented `key`; the reported identifier is derived from it and matches; no earlier candidate matched; an empty pattern stops after one candidate; the progress output is exactly `count / 10000` lines at multiples of 10000 |
| `RippleGen.Run` | ripplegen.cpp:7-43 | fewer than two arguments give the usage outcome; otherwise the outcome reports the first matching candidate's seed and identifier, plus its progress lines; the exit code is 0 on both paths |

## Left out

- The derivation of an identifier from a seed (`RippleAddress::setSeed`, `createGeneratorPublic`, `setAccountPublic`, `humanAccountID`, `humanSeed`): foreign cryptographic code, modelled as the pure function parameter `derive`.
- `getRand`: an entropy source, modelled as the arbitrary starting key `start`. The model does not record that the usage path never draws a key.
- The hexadecimal and human-readable formatting of the master seed (`humanSeed`, `getSeed().ToString()`): the report carries the seed as a number.
- All console text (`cout` lines): progress output is the sequence of counts it reports; the usage and final messages are the `Usage` and `Done` outcomes.
- RippleGen.Search: a run in which no candidate ever matches does not terminate in the source; the model only covers runs that end, given by the ghost witness `bound`.
- RippleGen.Search: `count` is a `uint64_t` in the source; the model counts with an unbounded natural number, so wrap-around after 2^64 candidates (and the shifted progress cadence after it) is not modelled.
- Multi-threaded workers, shared progress totals, a termination flag, ETA-50 estimates and a thread-count argument: the code has none of these.
