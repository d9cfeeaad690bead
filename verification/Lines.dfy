/** The lines of a file by offset and length, and what a reader that goes through them returns. */
module Lines {
  import opened Arithmetic
  import opened Sequences

  type Byte = bv8

  const NEWLINE: Byte := 10
  const RETURN: Byte := 13

  // Where the line that starts at `p` ends: at the next newline, or with the file.
  function LineEnd(content: seq<Byte>, p: nat): (e: nat)
    requires p <= |content|
    ensures p <= e <= |content|
    decreases |content| - p
  {
    if p == |content| || content[p] == NEWLINE then p else LineEnd(content, p + 1)
  }

  // ... and nowhere else.
  lemma {:induction false} LineEndIsFirst(content: seq<Byte>, p: nat, e: nat)
    requires p <= e <= |content|
    ensures LineEnd(content, p) == e
            <==> NEWLINE !in content[p..e] && (e == |content| || content[e] == NEWLINE)
    decreases |content| - p
  {
    if p < e {
      assert content[p..e] == [content[p]] + content[p + 1..e];
      LineEndIsFirst(content, p + 1, e);
    } else if p < |content| {
      assert content[p..p] == [];
    }
  }

  datatype Place = Place(start: nat, length: nat)

  // Where the line after the one at `p` starts; past the end of the file if that line is not terminated.
  function After(content: seq<Byte>, p: nat): nat
    requires p <= |content|
  {
    LineEnd(content, p) + 1
  }

  function Clip(content: seq<Byte>, p: nat): (r: nat)
    ensures r <= |content|
  {
    if p < |content| then p else |content|
  }

  function PlaceAt(content: seq<Byte>, p: nat): Place
    requires p <= |content|
  {
    Place(p, LineEnd(content, p) - p)
  }

  function PlacesFrom(content: seq<Byte>, p: nat): seq<Place>
    decreases if p < |content| then |content| - p else 0
  {
    if p >= |content| then [] else [PlaceAt(content, p)] + PlacesFrom(content, After(content, p))
  }

  function Places(content: seq<Byte>): seq<Place> {
    PlacesFrom(content, 0)
  }

  predicate IsPlace(content: seq<Byte>, at: Place) {
    at.start < |content| && at == PlaceAt(content, at.start)
  }

  // All trailing carriage returns and newlines go.
  function Stripped(raw: seq<Byte>): (r: seq<Byte>)
    ensures r <= raw
    ensures forall k :: |r| <= k < |raw| ==> raw[k] in {NEWLINE, RETURN}
    ensures r != [] ==> r[|r| - 1] !in {NEWLINE, RETURN}
  {
    if raw != [] && raw[|raw| - 1] in {NEWLINE, RETURN} then Stripped(raw[..|raw| - 1]) else raw
  }

  function Text(content: seq<Byte>, at: Place): seq<Byte>
    requires at.start + at.length <= |content|
  {
    Stripped(content[at.start..at.start + at.length])
  }

  lemma {:induction false} PlacesAreLines(content: seq<Byte>, p: nat, k: nat)
    requires k < |PlacesFrom(content, p)|
    ensures IsPlace(content, PlacesFrom(content, p)[k])
    ensures k + 1 < |PlacesFrom(content, p)| ==>
              PlacesFrom(content, p)[k + 1].start == After(content, PlacesFrom(content, p)[k].start)
    ensures k + 1 == |PlacesFrom(content, p)| ==> After(content, PlacesFrom(content, p)[k].start) >= |content|
    ensures k == 0 ==> PlacesFrom(content, p)[0].start == p
    decreases k
  {
    var next := PlacesFrom(content, After(content, p));
    assert PlacesFrom(content, p)[1..] == next;
    if k > 0 {
      PlacesAreLines(content, After(content, p), k - 1);
    } else if next != [] {
      assert next[0] == PlaceAt(content, After(content, p));
    }
  }

  // ---------- writing lines and finding them again ----------

  function Written(lines: seq<seq<Byte>>): seq<Byte> {
    if lines == [] then [] else lines[0] + [NEWLINE] + Written(lines[1..])
  }

  // What the places of a file hold, newlines not included.
  function Held(content: seq<Byte>, p: nat): seq<seq<Byte>>
    decreases if p < |content| then |content| - p else 0
  {
    if p >= |content| then []
    else [content[p..LineEnd(content, p)]] + Held(content, After(content, p))
  }

  lemma {:induction false} HeldIsPlaces(content: seq<Byte>, p: nat)
    ensures |Held(content, p)| == |PlacesFrom(content, p)|
    ensures forall k :: 0 <= k < |Held(content, p)| ==>
              var at := PlacesFrom(content, p)[k];
              at.start + at.length <= |content| && Held(content, p)[k] == content[at.start..at.start + at.length]
    decreases if p < |content| then |content| - p else 0
  {
    if p < |content| {
      HeldIsPlaces(content, After(content, p));
    }
  }

  lemma {:induction false} WrittenFrom(before: seq<Byte>, lines: seq<seq<Byte>>, last: seq<Byte>)
    requires forall k :: 0 <= k < |lines| ==> NEWLINE !in lines[k]
    requires NEWLINE !in last
    ensures Held(before + (Written(lines) + last), |before|) == lines + (if last == [] then [] else [last])
    decreases |lines|
  {
    var content := before + (Written(lines) + last);
    if lines == [] {
      assert content == before + last;
      if last != [] {
        assert content[|before|..|content|] == last;
        LineEndIsFirst(content, |before|, |content|);
      }
    } else {
      var line, rest := lines[0], Written(lines[1..]) + last;
      var e := |before| + |line|;
      assert content == before + line + [NEWLINE] + rest;
      assert content[|before|..e] == line && content[e] == NEWLINE;
      LineEndIsFirst(content, |before|, e);
      assert content == (before + line + [NEWLINE]) + (Written(lines[1..]) + last);
      WrittenFrom(before + line + [NEWLINE], lines[1..], last);
    }
  }

  // Main result: whatever newline-free lines are written, each with a newline after it -- the last one
  // perhaps without, if it is not empty -- are the lines found again; a final newline adds none.
  lemma WrittenLinesAreFound(lines: seq<seq<Byte>>, last: seq<Byte>)
    requires forall k :: 0 <= k < |lines| ==> NEWLINE !in lines[k]
    requires NEWLINE !in last
    ensures Held(Written(lines) + last, 0) == lines + (if last == [] then [] else [last])
  {
    WrittenFrom([], lines, last);
    assert [] + (Written(lines) + last) == Written(lines) + last;
  }

  // Main result: what is read of the k-th place of such a file is the k-th line without returns at its end.
  lemma WrittenLinesAreRead(lines: seq<seq<Byte>>, k: nat)
    requires forall i :: 0 <= i < |lines| ==> NEWLINE !in lines[i]
    requires k < |lines|
    ensures IsRead(Written(lines), |lines|, k, lines[k])
  {
    WrittenLinesAreFound(lines, []);
    assert Written(lines) + [] == Written(lines) && lines + [] == lines;
    HeldIsRead(Written(lines), lines, k);
    NothingStripped(lines[k]);
  }

  // The k-th of `n` places holds the line, of which all is read unless it ends in a return.
  ghost predicate IsRead(content: seq<Byte>, n: nat, k: nat, line: seq<Byte>) {
    && k < n == |Places(content)|
    && var at := Places(content)[k];
       && at.start + at.length <= |content| && Text(content, at) == Stripped(line)
       && (line == [] || line[|line| - 1] != RETURN ==> Text(content, at) == line)
  }

  lemma HeldIsRead(content: seq<Byte>, lines: seq<seq<Byte>>, k: nat)
    requires Held(content, 0) == lines && k < |lines|
    ensures k < |lines| == |Places(content)|
    ensures var at := Places(content)[k];
            at.start + at.length <= |content| && Text(content, at) == Stripped(lines[k])
  {
    HeldIsPlaces(content, 0);
  }

  lemma NothingStripped(line: seq<Byte>)
    requires NEWLINE !in line
    ensures line == [] || line[|line| - 1] != RETURN ==> Stripped(line) == line
  {
  }

  // ---------- the reader's runs ----------

  // Where the next sequential line starts, and the places left to draw from.
  datatype Reading = Reading(start: nat, places: seq<Place>)

  datatype Outcome = Line(at: Place) | Failed | Ended

  // One sequential line. A failed read leaves everything where it was.
  predicate Reads(content: seq<Byte>, s: nat, after: nat, r: Outcome)
    requires s <= |content|
  {
    match r
    case Ended => s == |content| && after == s
    case Failed => after == s
    case Line(at) => s < |content| && at == PlaceAt(content, s) && after == Clip(content, After(content, s))
  }

  // One call of `next`. `random` is off when there is nothing to draw from to begin with.
  ghost predicate Nexts(content: seq<Byte>, random: bool, repeat: bool, s: Reading, after: Reading, r: Outcome)
    requires s.start <= |content|
  {
    if random then
      if s.places == [] then r == Ended && after == s
      else exists i :: 0 <= i < |s.places|
             && after.places == (if repeat then s.places else Without(s.places, i))
             && after.start <= |content|
             && (r.Failed? || r == Line(s.places[i]))
    else if repeat && s.start == |content| && r != Failed then
      // back to the first line, if there is one
      Reads(content, 0, after.start, r) && after.places == s.places
    else if repeat && s.start == |content| then
      after.start in {0, |content|} && after.places == s.places
    else Reads(content, s.start, after.start, r) && after.places == s.places
  }

  ghost predicate IsRun(content: seq<Byte>, random: bool, repeat: bool, states: seq<Reading>, outcomes: seq<Outcome>) {
    && |states| == |outcomes| + 1
    && (forall k :: 0 <= k < |states| ==> states[k].start <= |content|)
    && forall k :: 0 <= k < |outcomes| ==> Nexts(content, random, repeat, states[k], states[k + 1], outcomes[k])
  }

  // The lines among the first `n` outcomes.
  function LinesOf(outcomes: seq<Outcome>, n: nat): seq<Place>
    requires n <= |outcomes|
  {
    if n == 0 then []
    else LinesOf(outcomes, n - 1) + (if outcomes[n - 1].Line? then [outcomes[n - 1].at] else [])
  }

  // After `n` draws: what was taken and what is left are the places of the file.
  ghost predicate Drawn(content: seq<Byte>, taken: seq<Place>, left: seq<Place>, n: nat) {
    && multiset(taken) + multiset(left) == multiset(Places(content))
    && |left| == if n <= |Places(content)| then |Places(content)| - n else 0
  }

  // Main result: random without repeat. Without failures the lines returned and the places left are always
  // the places of the file, so the calls return a permutation of the lines and then end.
  lemma RandomIsAPermutation(content: seq<Byte>, states: seq<Reading>, outcomes: seq<Outcome>, n: nat)
    requires IsRun(content, true, false, states, outcomes) && n <= |outcomes|
    requires forall k :: 0 <= k < n ==> outcomes[k] != Failed
    requires states[0].places == Places(content)
    ensures Drawn(content, LinesOf(outcomes, n), states[n].places, n)
    ensures n < |outcomes| ==> (outcomes[n] == Ended <==> n >= |Places(content)|)
  {
    RandomDraws(content, states, outcomes, n);
    if n < |outcomes| {
      EndsWhenEmpty(content, states[n], states[n + 1], outcomes[n]);
    }
  }

  lemma {:induction false} RandomDraws(content: seq<Byte>, states: seq<Reading>, outcomes: seq<Outcome>, n: nat)
    requires IsRun(content, true, false, states, outcomes) && n <= |outcomes|
    requires forall k :: 0 <= k < n ==> outcomes[k] != Failed
    requires states[0].places == Places(content)
    ensures Drawn(content, LinesOf(outcomes, n), states[n].places, n)
  {
    if n == 0 {
      assert LinesOf(outcomes, 0) == [];
    } else {
      var k := n - 1;
      RandomDraws(content, states, outcomes, k);
      OneIsDrawn(content, states[k], states[k + 1], outcomes[k], LinesOf(outcomes, k), k);
    }
  }

  lemma EndsWhenEmpty(content: seq<Byte>, s: Reading, after: Reading, r: Outcome)
    requires s.start <= |content| && Nexts(content, true, false, s, after, r)
    ensures r == Ended <==> s.places == []
  {
  }

  lemma OneIsDrawn(content: seq<Byte>, s: Reading, after: Reading, r: Outcome, taken: seq<Place>, n: nat)
    requires s.start <= |content| && Nexts(content, true, false, s, after, r) && r != Failed
    requires Drawn(content, taken, s.places, n)
    ensures Drawn(content, taken + (if r.Line? then [r.at] else []), after.places, n + 1)
  {
    if s.places == [] {
      assert taken + [] == taken;
    } else {
      var i :| 0 <= i < |s.places| && after.places == Without(s.places, i) && r == Line(s.places[i]);
      OneMoves(taken, s.places, i);
    }
  }

  lemma OneMoves(taken: seq<Place>, places: seq<Place>, i: nat)
    requires i < |places|
    ensures multiset(taken + [places[i]]) + multiset(Without(places, i)) == multiset(taken) + multiset(places)
  {
    var t, w, m := multiset(taken), multiset(Without(places, i)), multiset{places[i]};
    WithoutCounts(places, i);
    assert (t + m) + w == t + (w + m);
  }

  // Random with repeat never runs out, and returns only lines of the file.
  lemma {:induction false} RandomRepeatGoesOn(
    content: seq<Byte>, states: seq<Reading>, outcomes: seq<Outcome>, n: nat)
    requires IsRun(content, true, true, states, outcomes) && n < |outcomes|
    requires states[0].places == Places(content) != []
    ensures states[n].places == Places(content)
    ensures outcomes[n] == Failed || (outcomes[n].Line? && IsPlace(content, outcomes[n].at))
  {
    if n > 0 {
      RandomRepeatGoesOn(content, states, outcomes, n - 1);
    }
    assert Nexts(content, true, true, states[n], states[n + 1], outcomes[n]);
    if outcomes[n] != Failed {
      var i :| 0 <= i < |states[n].places| && outcomes[n] == Line(states[n].places[i]);
      PlacesAreLines(content, 0, i);
    }
  }

  // Where a sequential reader stands after `k` lines.
  function StartAfter(content: seq<Byte>, k: nat): nat
    requires k <= |Places(content)|
  {
    if k < |Places(content)| then Places(content)[k].start else |content|
  }

  lemma StartsChain(content: seq<Byte>, k: nat)
    requires k <= |Places(content)|
    ensures k == 0 ==> StartAfter(content, 0) == 0
    ensures StartAfter(content, k) == |content| <==> k == |Places(content)|
    ensures k < |Places(content)| ==>
              var s := StartAfter(content, k);
              && s < |content| && Places(content)[k] == PlaceAt(content, s)
              && StartAfter(content, k + 1) == Clip(content, After(content, s))
  {
    if k < |Places(content)| {
      PlacesAreLines(content, 0, k);
      if k + 1 < |Places(content)| {
        PlacesAreLines(content, 0, k + 1);
      }
    }
  }

  // Main result: reading in sequence without repeat, failed reads tried again. The lines come in order, and
  // the reader ends after the last one.
  lemma {:induction false} LinesThenTheEnd(content: seq<Byte>, states: seq<Reading>, outcomes: seq<Outcome>, n: nat)
    requires IsRun(content, false, false, states, outcomes) && n <= |outcomes|
    requires states[0].start == 0
    ensures LinesOf(outcomes, n) <= Places(content)
    ensures states[n].start == StartAfter(content, |LinesOf(outcomes, n)|)
    ensures n < |outcomes| && outcomes[n] == Ended ==> LinesOf(outcomes, n) == Places(content)
  {
    StartsChain(content, 0);
    if n > 0 {
      LinesThenTheEnd(content, states, outcomes, n - 1);
      OneMoreLine(content, LinesOf(outcomes, n - 1), states[n - 1].start, states[n].start, outcomes[n - 1]);
    }
    StartsChain(content, |LinesOf(outcomes, n)|);
    if n < |outcomes| {
      assert Nexts(content, false, false, states[n], states[n + 1], outcomes[n]);
    }
  }

  lemma OneMoreLine(content: seq<Byte>, lines: seq<Place>, s: nat, after: nat, r: Outcome)
    requires lines <= Places(content) && s == StartAfter(content, |lines|) && s <= |content|
    requires Reads(content, s, after, r)
    ensures var next := lines + (if r.Line? then [r.at] else []);
            next <= Places(content) && after == StartAfter(content, |next|)
  {
    StartsChain(content, |lines|);
  }

  // Main result: reading in sequence with repeat. The lines of a file that is not empty come round for ever.
  lemma {:induction false} LinesComeRound(content: seq<Byte>, states: seq<Reading>, outcomes: seq<Outcome>, n: nat)
    requires IsRun(content, false, true, states, outcomes) && n <= |outcomes|
    requires states[0].start == 0 && content != []
    requires forall k :: 0 <= k < n ==> outcomes[k] != Failed
    ensures |Places(content)| > 0
    ensures states[n].start == StartAfter(content, if n == 0 then 0 else (n - 1) % |Places(content)| + 1)
    ensures forall k :: 0 <= k < n ==> outcomes[k] == Line(Places(content)[k % |Places(content)|])
  {
    if n > 0 {
      LinesComeRound(content, states, outcomes, n - 1);
      assert Nexts(content, false, true, states[n - 1], states[n], outcomes[n - 1]);
      NextInTheCycle(content, states[n - 1].start, states[n].start, outcomes[n - 1], n - 1);
    }
  }

  lemma NextInTheCycle(content: seq<Byte>, s: nat, after: nat, r: Outcome, k: nat)
    requires s <= |content| && |Places(content)| > 0 && content != []
    requires s == StartAfter(content, if k == 0 then 0 else (k - 1) % |Places(content)| + 1)
    requires if s == |content| then Reads(content, 0, after, r) else Reads(content, s, after, r)
    requires r != Failed
    ensures r == Line(Places(content)[k % |Places(content)|])
    ensures after == StartAfter(content, k % |Places(content)| + 1)
  {
    var n := |Places(content)|;
    var at := if k == 0 then 0 else (k - 1) % n + 1;
    NextRemainder(k, n);
    StartsChain(content, 0);
    StartsChain(content, at);
    NextFrom(content, at, s, after, r);
  }

  lemma NextFrom(content: seq<Byte>, at: nat, s: nat, after: nat, r: Outcome)
    requires at <= |Places(content)| && content != []
    requires s == StartAfter(content, at) && s <= |content|
    requires if s == |content| then Reads(content, 0, after, r) else Reads(content, s, after, r)
    requires r != Failed
    ensures var i := if at == |Places(content)| then 0 else at;
            i < |Places(content)| && r == Line(Places(content)[i]) && after == StartAfter(content, i + 1)
  {
    StartsChain(content, 0);
    StartsChain(content, at);
  }

  lemma NextRemainder(k: nat, n: nat)
    requires n > 0
    ensures k > 0 ==> k % n == if (k - 1) % n + 1 == n then 0 else (k - 1) % n + 1
  {
    if k > 0 {
      var q, r := (k - 1) / n, (k - 1) % n;
      assert k == q * n + (r + 1);
      if r + 1 == n {
        assert k == (q + 1) * n + 0;
        RemainderIs(k, n, q + 1, 0);
      } else {
        RemainderIs(k, n, q, r + 1);
      }
    }
  }

  // ---------- what a reader sends on ----------

  // Where a reader begins: in random mode there are places to draw from.
  predicate Begins(content: seq<Byte>, random: bool, s: Reading) {
    if random then s.places == Places(content) != [] else s.start == 0
  }

  // The lines sent on, and whether that was all: a permutation of the file's lines, lines of the file for ever,
  // its lines round and round, or its lines in order.
  ghost predicate SendsLines(content: seq<Byte>, random: bool, repeat: bool, lines: seq<Place>, ended: bool) {
    if random && repeat then !ended && forall k :: 0 <= k < |lines| ==> IsPlace(content, lines[k])
    else if random then
      if ended then multiset(lines) == multiset(Places(content)) else multiset(lines) <= multiset(Places(content))
    else if repeat && content != [] then
      !ended && Places(content) != []
      && forall k :: 0 <= k < |lines| ==> lines[k] == Places(content)[k % |Places(content)|]
    else if ended then lines == Places(content)
    else lines <= Places(content)
  }

  lemma {:induction false} AllAreLines(outcomes: seq<Outcome>, n: nat)
    requires n <= |outcomes| && forall k :: 0 <= k < n ==> outcomes[k].Line?
    ensures |LinesOf(outcomes, n)| == n
    ensures forall k :: 0 <= k < n ==> LinesOf(outcomes, n)[k] == outcomes[k].at
  {
    if n > 0 {
      AllAreLines(outcomes, n - 1);
    }
  }

  // Main result: the lines of every run up to its first failure, in each of the modes.
  lemma RunSendsLines(
    content: seq<Byte>, random: bool, repeat: bool, states: seq<Reading>, outcomes: seq<Outcome>, n: nat)
    requires IsRun(content, random, repeat, states, outcomes) && n <= |outcomes| && Begins(content, random, states[0])
    requires forall k :: 0 <= k < n ==> outcomes[k].Line?
    ensures SendsLines(content, random, repeat, LinesOf(outcomes, n), n < |outcomes| && outcomes[n] == Ended)
  {
    AllAreLines(outcomes, n);
    if random && repeat {
      forall k | 0 <= k <= n && k < |outcomes|
        ensures outcomes[k] == Failed || (outcomes[k].Line? && IsPlace(content, outcomes[k].at))
      {
        RandomRepeatGoesOn(content, states, outcomes, k);
      }
    } else if random {
      RandomIsAPermutation(content, states, outcomes, n);
      EndsWithNothingLeft(content, states, outcomes, n);
    } else if repeat && content != [] {
      LinesComeRound(content, states, outcomes, n);
      NeverEnds(content, states, outcomes, n);
    } else if repeat {
      NothingToRead(content, states, outcomes, n);
    } else {
      LinesThenTheEnd(content, states, outcomes, n);
    }
  }

  lemma EndsWithNothingLeft(content: seq<Byte>, states: seq<Reading>, outcomes: seq<Outcome>, n: nat)
    requires IsRun(content, true, false, states, outcomes) && n <= |outcomes|
    requires Drawn(content, LinesOf(outcomes, n), states[n].places, n)
    ensures multiset(LinesOf(outcomes, n)) <= multiset(Places(content))
    ensures n < |outcomes| && outcomes[n] == Ended ==> multiset(LinesOf(outcomes, n)) == multiset(Places(content))
  {
    if n < |outcomes| {
      EndsWhenEmpty(content, states[n], states[n + 1], outcomes[n]);
    }
  }

  lemma NeverEnds(content: seq<Byte>, states: seq<Reading>, outcomes: seq<Outcome>, n: nat)
    requires IsRun(content, false, true, states, outcomes) && n <= |outcomes| && content != []
    ensures n < |outcomes| ==> outcomes[n] != Ended
  {
    if n < |outcomes| {
      assert Nexts(content, false, true, states[n], states[n + 1], outcomes[n]);
    }
  }

  lemma NothingToRead(content: seq<Byte>, states: seq<Reading>, outcomes: seq<Outcome>, n: nat)
    requires IsRun(content, false, true, states, outcomes) && n <= |outcomes| && content == []
    requires states[0].start == 0
    requires forall k :: 0 <= k < n ==> outcomes[k].Line?
    ensures n == 0 && Places(content) == []
  {
    if 0 < |outcomes| {
      NoLine(content, states[0], states[1], outcomes[0]);
    }
  }

  lemma NoLine(content: seq<Byte>, s: Reading, after: Reading, r: Outcome)
    requires content == [] && s.start == 0 && Nexts(content, false, true, s, after, r)
    ensures !r.Line?
  {
  }

  // A run of lines that may go on, and the lines it has sent.
  ghost predicate Recorded(
    content: seq<Byte>, random: bool, repeat: bool, states: seq<Reading>, outcomes: seq<Outcome>, now: Reading,
    lines: seq<Place>)
  {
    && IsRun(content, random, repeat, states, outcomes) && Begins(content, random, states[0])
    && states[|outcomes|] == now && |lines| == |outcomes| && lines == LinesOf(outcomes, |outcomes|)
    && forall k :: 0 <= k < |outcomes| ==> outcomes[k].Line?
  }

  lemma RecordMore(
    content: seq<Byte>, random: bool, repeat: bool, states: seq<Reading>, outcomes: seq<Outcome>, now: Reading,
    lines: seq<Place>, after: Reading, outcome: Outcome)
    requires Recorded(content, random, repeat, states, outcomes, now, lines)
    requires now.start <= |content| && after.start <= |content|
    requires Nexts(content, random, repeat, now, after, outcome)
    ensures SendsLines(content, random, repeat, lines, outcome == Ended)
    ensures outcome.Line? ==>
              Recorded(content, random, repeat, states + [after], outcomes + [outcome], after, lines + [outcome.at])
  {
    var all := outcomes + [outcome];
    RunGrows(content, random, repeat, states, outcomes, after, outcome);
    LinesOfMore(outcomes, outcome, |outcomes|);
    RunSendsLines(content, random, repeat, states + [after], all, |outcomes|);
  }

  lemma RunGrows(
    content: seq<Byte>, random: bool, repeat: bool, states: seq<Reading>, outcomes: seq<Outcome>, after: Reading,
    outcome: Outcome)
    requires IsRun(content, random, repeat, states, outcomes) && after.start <= |content|
    requires Nexts(content, random, repeat, states[|outcomes|], after, outcome)
    ensures IsRun(content, random, repeat, states + [after], outcomes + [outcome])
  {
    var grown, all := states + [after], outcomes + [outcome];
    forall k | 0 <= k < |all|
      ensures Nexts(content, random, repeat, grown[k], grown[k + 1], all[k])
    {
      if k < |outcomes| {
        assert Nexts(content, random, repeat, states[k], states[k + 1], outcomes[k]);
      }
    }
  }

  lemma {:induction false} LinesOfMore(outcomes: seq<Outcome>, outcome: Outcome, n: nat)
    requires n <= |outcomes|
    ensures LinesOf(outcomes + [outcome], n) == LinesOf(outcomes, n)
  {
    if n > 0 {
      LinesOfMore(outcomes, outcome, n - 1);
    }
  }
}
