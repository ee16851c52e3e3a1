/** The cgroup v2 accounting files (pkg/systemd/cgroup.go). A file is a string whose characters stand for
    its bytes. */
module Cgroup {
  import opened Options

  const TWO_64 := 0x1_0000_0000_0000_0000

  // ---- Go's byte and number parsing ----

  // bytes.IndexByte, with the length standing for "not found".
  function IndexOf(s: string, c: char): (i: nat)
    ensures i <= |s|
    ensures forall k | 0 <= k < i :: s[k] != c
    ensures i < |s| ==> s[i] == c
  {
    if s == [] || s[0] == c then 0 else 1 + IndexOf(s[1..], c)
  }

  predicate AsciiSpace(c: char) {
    c == ' ' || c == '\t' || c == '\n' || c == '\r' || c == '\U{000B}' || c == '\U{000C}'
  }

  // The UTF-8 encodings of the other runes unicode.IsSpace accepts.
  predicate TwoByteSpace(a: char, b: char) {
    a == '\U{00C2}' && (b == '\U{0085}' || b == '\U{00A0}')
  }

  predicate ThreeByteSpace(a: char, b: char, c: char) {
    || (a == '\U{00E1}' && b == '\U{009A}' && c == '\U{0080}')
    || (a == '\U{00E2}' && b == '\U{0080}'
        && ('\U{0080}' <= c <= '\U{008A}' || c == '\U{00A8}' || c == '\U{00A9}' || c == '\U{00AF}'))
    || (a == '\U{00E2}' && b == '\U{0081}' && c == '\U{009F}')
    || (a == '\U{00E3}' && b == '\U{0080}' && c == '\U{0080}')
  }

  // How many bytes of white space s starts, or ends, with: one rune's worth, or none.
  function LeadingSpace(s: string): (n: nat)
    ensures n <= |s|
  {
    if |s| >= 1 && AsciiSpace(s[0]) then 1
    else if |s| >= 2 && TwoByteSpace(s[0], s[1]) then 2
    else if |s| >= 3 && ThreeByteSpace(s[0], s[1], s[2]) then 3
    else 0
  }

  function TrailingSpace(s: string): (n: nat)
    ensures n <= |s|
  {
    var k := |s|;
    if k >= 1 && AsciiSpace(s[k - 1]) then 1
    else if k >= 2 && TwoByteSpace(s[k - 2], s[k - 1]) then 2
    else if k >= 3 && ThreeByteSpace(s[k - 3], s[k - 2], s[k - 1]) then 3
    else 0
  }

  function TrimLeft(s: string): (r: string)
    ensures LeadingSpace(r) == 0
    decreases |s|
  {
    var n := LeadingSpace(s);
    if n == 0 then s else TrimLeft(s[n..])
  }

  function TrimRight(s: string): (r: string)
    ensures TrailingSpace(r) == 0 && r <= s
    decreases |s|
  {
    var n := TrailingSpace(s);
    if n == 0 then s else TrimRight(s[..|s| - n])
  }

  // bytes.TrimSpace.
  function TrimSpace(s: string): (r: string)
    ensures LeadingSpace(r) == 0 && TrailingSpace(r) == 0
  {
    TrimRight(TrimLeft(s))
  }

  predicate IsDigit(c: char) {
    '0' <= c <= '9'
  }

  predicate AllDigits(s: string) {
    forall k | 0 <= k < |s| :: IsDigit(s[k])
  }

  function ValueOf(s: string): nat
    requires AllDigits(s)
  {
    if s == [] then 0 else 10 * ValueOf(s[..|s| - 1]) + (s[|s| - 1] as int - '0' as int)
  }

  // strconv.ParseUint(s, 10, 64).
  function ParseUint(s: string): (r: Option<nat>)
    ensures r.Some? ==> r.value < TWO_64
  {
    if s != [] && AllDigits(s) && ValueOf(s) < TWO_64 then Some(ValueOf(s)) else None
  }

  datatype Pair = Pair(key: string, value: nat)

  // One line: the key up to the first space, and a number after it.
  function ParseLine(line: string): Option<Pair> {
    var i := IndexOf(line, ' ');
    if i == |line| then None
    else
      var value := ParseUint(TrimSpace(line[i + 1..]));
      if value.None? then None else Some(Pair(line[..i], value.value))
  }

  // ---- What a file says ----

  // The newline-separated lines; a final newline ends the last line and starts no other.
  function Lines(data: string): seq<string>
    decreases |data|
  {
    if data == [] then []
    else
      var i := IndexOf(data, '\n');
      if i == |data| then [data] else [data[..i]] + Lines(data[i + 1..])
  }

  function Parseable(lines: seq<string>): seq<Pair> {
    if lines == [] then []
    else
      var p := ParseLine(lines[0]);
      (if p.Some? then [p.value] else []) + Parseable(lines[1..])
  }

  function Pairs(data: string): seq<Pair> {
    Parseable(Lines(data))
  }

  // The callback's state after its first n calls.
  function After<S>(fn: (S, Pair) -> (S, bool), s: S, pairs: seq<Pair>, n: nat): S
    requires n <= |pairs|
  {
    if n == 0 then s else fn(After(fn, s, pairs, n - 1), pairs[n - 1]).0
  }

  // What the callback answers on pair k when all pairs before it were passed to it.
  predicate GoesOn<S(!new)>(fn: (S, Pair) -> (S, bool), s: S, pairs: seq<Pair>, k: nat)
    requires k < |pairs|
  {
    fn(After(fn, s, pairs, k), pairs[k]).1
  }

  // A scan that makes exactly n calls: no earlier one asked to stop, and the last one did unless there
  // was nothing left.
  predicate StopsAt<S(!new)>(fn: (S, Pair) -> (S, bool), s: S, pairs: seq<Pair>, n: nat) {
    && n <= |pairs|
    && (forall k | 0 <= k < n - 1 :: GoesOn(fn, s, pairs, k))
    && (n < |pairs| ==> n > 0 && !GoesOn(fn, s, pairs, n - 1))
  }

  // The line the loop takes off the front of rest, and what it leaves.
  function FirstLine(rest: string): string {
    rest[..IndexOf(rest, '\n')]
  }

  function AfterFirstLine(rest: string): string {
    var i := IndexOf(rest, '\n');
    if i < |rest| then rest[i + 1..] else []
  }

  lemma LinesOfFirstLine(rest: string)
    requires rest != []
    ensures Lines(rest) == [FirstLine(rest)] + Lines(AfterFirstLine(rest))
  {
    if IndexOf(rest, '\n') == |rest| {
      assert FirstLine(rest) == rest;
    }
  }

  lemma PairsOfFirstLine(rest: string)
    requires rest != []
    ensures var p := ParseLine(FirstLine(rest));
            Pairs(rest) == (if p.Some? then [p.value] else []) + Pairs(AfterFirstLine(rest))
  {
    LinesOfFirstLine(rest);
    hide ParseLine, Lines, FirstLine, AfterFirstLine;
    assert Lines(rest)[1..] == Lines(AfterFirstLine(rest));
  }

  /** scanCgroupKeyValue. The callback sees exactly the parseable lines, in order, up to and including the
      first one on which it asks to stop; its own state is threaded through. */
  method ScanCgroupKeyValue<S(!new)>(data: string, fn: (S, Pair) -> (S, bool), start: S)
    returns (s: S, calls: nat)
    ensures calls <= |Pairs(data)| && StopsAt(fn, start, Pairs(data), calls)
    ensures s == After(fn, start, Pairs(data), calls)
  {
    hide Pairs, ParseLine, IndexOf;
    s, calls := start, 0;
    var rest := data;
    ghost var pairs := Pairs(data);
    while |rest| > 0
      invariant calls <= |pairs| && pairs[calls..] == Pairs(rest)
      invariant s == After(fn, start, pairs, calls)
      invariant forall k | 0 <= k < calls :: GoesOn(fn, start, pairs, k)
      decreases |rest|
    {
      PairsOfFirstLine(rest);
      var line := rest;
      var i := IndexOf(rest, '\n');
      if i < |rest| {
        line, rest := rest[..i], rest[i + 1..];
      } else {
        assert rest[..i] == rest;
        rest := [];
      }
      var p := ParseLine(line);
      if p.Some? {
        assert pairs[calls..][0] == p.value && pairs[calls..][1..] == Pairs(rest);
        var (next, goesOn) := fn(s, p.value);
        s, calls := next, calls + 1;
        if !goesOn {
          return;
        }
      }
    }
    assert pairs[calls..] == [] by {
      NoPairsInNothing();
    }
  }

  lemma NoPairsInNothing()
    ensures Pairs([]) == []
  {
  }

  // ---- Rendering ----

  function Decimal(n: nat): (s: string)
    ensures s != [] && AllDigits(s) && ValueOf(s) == n
  {
    var digit := ('0' as int + n % 10) as char;
    if n < 10 then [digit] else Decimal(n / 10) + [digit]
  }

  function RenderLine(p: Pair): string {
    p.key + " " + Decimal(p.value)
  }

  // The file of a list of pairs, with or without a final newline.
  function Render(pairs: seq<Pair>, finalNewline: bool): string {
    if pairs == [] then []
    else if |pairs| == 1 then RenderLine(pairs[0]) + if finalNewline then "\n" else ""
    else RenderLine(pairs[0]) + "\n" + Render(pairs[1..], finalNewline)
  }

  predicate Renderable(p: Pair) {
    '\n' !in p.key && ' ' !in p.key && p.value < TWO_64
  }

  lemma DigitsAreNotTrimmed(s: string)
    requires s != [] && AllDigits(s)
    ensures TrimSpace(s) == s
  {
    assert IsDigit(s[0]) && IsDigit(s[|s| - 1]);
  }

  lemma LineIsParsed(p: Pair)
    requires Renderable(p)
    ensures ParseLine(RenderLine(p)) == Some(p) && '\n' !in RenderLine(p)
  {
    var line, digits := RenderLine(p), Decimal(p.value);
    assert line[|p.key|] == ' ' && line[..|p.key|] == p.key && line[|p.key| + 1..] == digits;
    assert forall k | 0 <= k < |p.key| :: line[k] == p.key[k];
    assert IndexOf(line, ' ') == |p.key|;
    DigitsAreNotTrimmed(digits);
    forall k | 0 <= k < |line| ensures line[k] != '\n' {
      assert k > |p.key| ==> line[k] == digits[k - |p.key| - 1] && IsDigit(digits[k - |p.key| - 1]);
    }
  }

  lemma FirstLineOf(line: string, rest: string)
    requires '\n' !in line
    ensures FirstLine(line + ['\n'] + rest) == line && AfterFirstLine(line + ['\n'] + rest) == rest
    ensures FirstLine(line) == line && AfterFirstLine(line) == []
  {
    var data := line + ['\n'] + rest;
    assert data[|line|] == '\n' && data[..|line|] == line && data[|line| + 1..] == rest;
    assert forall k | 0 <= k < |line| :: data[k] == line[k];
  }

  /** Scanning what was rendered gives the pairs back, whatever the keys and with or without the last
      newline. */
  lemma {:induction false} RenderedPairsAreScanned(pairs: seq<Pair>, finalNewline: bool)
    requires forall k | 0 <= k < |pairs| :: Renderable(pairs[k])
    ensures Pairs(Render(pairs, finalNewline)) == pairs
  {
    hide ParseLine, RenderLine, FirstLine, AfterFirstLine;
    if pairs != [] {
      var line, rest := RenderLine(pairs[0]), Render(pairs[1..], finalNewline);
      LineIsParsed(pairs[0]);
      FirstLineOf(line, rest);
      RenderedPairsAreScanned(pairs[1..], finalNewline);
      var data := Render(pairs, finalNewline);
      assert |pairs| > 1 || finalNewline ==> data == line + ['\n'] + rest;
      assert |pairs| == 1 ==> rest == [];
      assert |pairs| == 1 && !finalNewline ==> data == line;
      RenderedLineIsNotEmpty(pairs[0]);
      PairsOfFirstLine(data);
      assert pairs == [pairs[0]] + pairs[1..];
    }
  }

  lemma RenderedLineIsNotEmpty(p: Pair)
    ensures RenderLine(p) != []
  {
  }

  lemma SomeFile(pairs: seq<Pair>) returns (data: string)
    requires forall k | 0 <= k < |pairs| :: Renderable(pairs[k])
    ensures Pairs(data) == pairs
  {
    data := Render(pairs, true);
    RenderedPairsAreScanned(pairs, true);
  }

  // ---- The two consumers ----

  datatype Memory = Memory(usage: nat, rss: nat, cache: nat, measured: seq<string>, haveAnon: bool, haveFile: bool)

  predicate Wanted(p: Pair) {
    p.key == "anon" || p.key == "file"
  }

  function TakeMemory(m: Memory, p: Pair): (Memory, bool) {
    var next :=
      if p.key == "anon" then m.(rss := p.value, measured := m.measured + ["RSS"], haveAnon := true)
      else if p.key == "file" then m.(cache := p.value, measured := m.measured + ["Cache"], haveFile := true)
      else m;
    (next, !next.haveAnon || !next.haveFile)
  }

  // A scan that never stops early.
  function FullScan(m: Memory, pairs: seq<Pair>): Memory {
    After(TakeMemory, m, pairs, |pairs|)
  }

  function CountKey(pairs: seq<Pair>, key: string): nat {
    if pairs == [] then 0 else CountKey(pairs[..|pairs| - 1], key) + if pairs[|pairs| - 1].key == key then 1 else 0
  }

  // What Nomad is told.
  predicate SameReport(a: Memory, b: Memory) {
    a.rss == b.rss && a.cache == b.cache && a.measured == b.measured
  }

  lemma {:induction false} ReportGrows(m: Memory, pairs: seq<Pair>, n: nat, k: nat)
    requires n <= k <= |pairs|
    ensures var a, b := After(TakeMemory, m, pairs, n), After(TakeMemory, m, pairs, k);
            && |a.measured| <= |b.measured|
            && (SameReport(a, b) <==> forall i | n <= i < k :: !Wanted(pairs[i]))
            && ((exists i | n <= i < k :: Wanted(pairs[i])) ==> |a.measured| < |b.measured|)
  {
    if n < k {
      ReportGrows(m, pairs, n, k - 1);
    }
  }

  lemma ExactIffNothingWantedIsSkipped(m: Memory, pairs: seq<Pair>, n: nat)
    requires n <= |pairs|
    ensures SameReport(After(TakeMemory, m, pairs, n), FullScan(m, pairs)) <==>
            forall i | n <= i < |pairs| :: !Wanted(pairs[i])
  {
    ReportGrows(m, pairs, n, |pairs|);
  }

  lemma {:induction false} CountSplits(pairs: seq<Pair>, key: string, i: nat)
    requires i < |pairs|
    ensures pairs[i].key == key ==> CountKey(pairs, key) >= CountKey(pairs[..i], key) + 1
    ensures CountKey(pairs, key) >= CountKey(pairs[..i], key)
  {
    var n := |pairs| - 1;
    if i < n {
      CountSplits(pairs[..n], key, i);
      assert pairs[..n][..i] == pairs[..i];
    }
  }

  lemma {:induction false} SeenMeansCounted(m: Memory, pairs: seq<Pair>, n: nat)
    requires !m.haveAnon && !m.haveFile && n <= |pairs|
    ensures After(TakeMemory, m, pairs, n).haveAnon <==> CountKey(pairs[..n], "anon") >= 1
    ensures After(TakeMemory, m, pairs, n).haveFile <==> CountKey(pairs[..n], "file") >= 1
  {
    if n > 0 {
      SeenMeansCounted(m, pairs, n - 1);
      assert pairs[..n][..n - 1] == pairs[..n - 1];
    }
  }

  // No anon or file line has both an anon and a file line before it.
  predicate NothingFollowsBoth(pairs: seq<Pair>) {
    forall j | 0 <= j < |pairs| && Wanted(pairs[j]) ::
        CountKey(pairs[..j], "anon") == 0 || CountKey(pairs[..j], "file") == 0
  }

  lemma NotBothBeforeTheStop(m: Memory, pairs: seq<Pair>, n: nat, j: nat)
    requires !m.haveAnon && !m.haveFile && StopsAt(TakeMemory, m, pairs, n) && j < n
    ensures CountKey(pairs[..j], "anon") == 0 || CountKey(pairs[..j], "file") == 0
  {
    SeenMeansCounted(m, pairs, j);
    if j > 0 {
      assert GoesOn(TakeMemory, m, pairs, j - 1);
    }
  }

  lemma BothBeforeAnySkipped(m: Memory, pairs: seq<Pair>, n: nat, j: nat)
    requires !m.haveAnon && !m.haveFile && StopsAt(TakeMemory, m, pairs, n) && n <= j < |pairs|
    ensures CountKey(pairs[..j], "anon") >= 1 && CountKey(pairs[..j], "file") >= 1
  {
    assert !GoesOn(TakeMemory, m, pairs, n - 1);
    SeenMeansCounted(m, pairs, n);
    CountPrefix(pairs[..j], "anon", n);
    CountPrefix(pairs[..j], "file", n);
    assert pairs[..j][..n] == pairs[..n];
  }

  /** Stopping early is exact precisely for a file in which no anon or file line follows one of each: then, and
      only then, the report is that of a full scan. */
  lemma EarlyExitIsExactIff(m: Memory, pairs: seq<Pair>, n: nat)
    requires !m.haveAnon && !m.haveFile && StopsAt(TakeMemory, m, pairs, n)
    ensures SameReport(After(TakeMemory, m, pairs, n), FullScan(m, pairs)) <==> NothingFollowsBoth(pairs)
  {
    ExactIffNothingWantedIsSkipped(m, pairs, n);
    forall j | 0 <= j < |pairs|
      ensures if j < n then CountKey(pairs[..j], "anon") == 0 || CountKey(pairs[..j], "file") == 0
              else CountKey(pairs[..j], "anon") >= 1 && CountKey(pairs[..j], "file") >= 1
    {
      if j < n {
        NotBothBeforeTheStop(m, pairs, n, j);
      } else {
        BothBeforeAnySkipped(m, pairs, n, j);
      }
    }
  }

  /** A file on which stopping early is not exact: its second anon line is never read. */
  lemma EarlyExitMissesARepeat() returns (data: string)
    ensures var pairs, m := Pairs(data), Memory(0, 0, 0, [], false, false);
            && pairs == [Pair("anon", 1), Pair("file", 2), Pair("anon", 3)] && StopsAt(TakeMemory, m, pairs, 2)
            && After(TakeMemory, m, pairs, 2).rss == 1 && FullScan(m, pairs).rss == 3
            && !NothingFollowsBoth(pairs)
  {
    var pairs, m := [Pair("anon", 1), Pair("file", 2), Pair("anon", 3)], Memory(0, 0, 0, [], false, false);
    data := SomeFile(pairs);
    assert After(TakeMemory, m, pairs, 1) == Memory(0, 1, 0, ["RSS"], true, false);
    assert After(TakeMemory, m, pairs, 2) == Memory(0, 1, 2, ["RSS", "Cache"], true, true);
    assert pairs[..2] == [Pair("anon", 1), Pair("file", 2)];
    SeenMeansCounted(m, pairs, 2);
  }

  /** In particular it is exact for a file with at most one anon and one file line, wherever they are. */
  lemma EarlyExitKeepsTheReport(m: Memory, pairs: seq<Pair>, n: nat)
    requires !m.haveAnon && !m.haveFile && StopsAt(TakeMemory, m, pairs, n)
    requires CountKey(pairs, "anon") <= 1 && CountKey(pairs, "file") <= 1
    ensures SameReport(After(TakeMemory, m, pairs, n), FullScan(m, pairs))
  {
    EarlyExitIsExactIff(m, pairs, n);
    forall j | 0 <= j < |pairs| && Wanted(pairs[j])
      ensures CountKey(pairs[..j], "anon") == 0 || CountKey(pairs[..j], "file") == 0
    {
      CountSplits(pairs, pairs[j].key, j);
    }
  }

  lemma {:induction false} CountPrefix(pairs: seq<Pair>, key: string, n: nat)
    requires n <= |pairs|
    ensures CountKey(pairs[..n], key) <= CountKey(pairs, key)
  {
    if n < |pairs| {
      CountSplits(pairs, key, n);
    } else {
      assert pairs[..n] == pairs;
    }
  }

  // The CPU time passed on, in nanoseconds, multiplied in uint64.
  function TakeCpu(nsec: Option<nat>, p: Pair): (Option<nat>, bool) {
    if p.key != "usage_usec" then (nsec, true) else (Some(p.value * 1000 % TWO_64), false)
  }

  lemma {:induction false} NoCpuYet(pairs: seq<Pair>, n: nat)
    requires n <= |pairs| && forall k | 0 <= k < n :: pairs[k].key != "usage_usec"
    ensures After(TakeCpu, None, pairs, n) == None
  {
    if n > 0 {
      NoCpuYet(pairs, n - 1);
    }
  }

  /** The CPU sample is the first usage_usec line's, times 1000: exact exactly up to (2^64-1)/1000
      microseconds. Without such a line there is none. */
  lemma {:induction false} CpuIsTheFirstUsage(pairs: seq<Pair>, n: nat, i: nat)
    requires StopsAt(TakeCpu, None, pairs, n)
    requires i <= |pairs| && (forall k | 0 <= k < i :: pairs[k].key != "usage_usec")
    requires i < |pairs| ==> pairs[i].key == "usage_usec"
    ensures i == |pairs| ==> After(TakeCpu, None, pairs, n) == None
    ensures i < |pairs| ==> n == i + 1 && After(TakeCpu, None, pairs, n) == Some(pairs[i].value * 1000 % TWO_64)
    ensures i < |pairs| ==>
              (After(TakeCpu, None, pairs, n) == Some(pairs[i].value * 1000) <==> pairs[i].value <= (TWO_64 - 1) / 1000)
  {
    if n <= i {
      NoCpuYet(pairs, n);
      // Only a usage_usec line stops the scan.
      assert forall k | 0 <= k < n :: GoesOn(TakeCpu, None, pairs, k);
    } else {
      assert i < |pairs| ==> !GoesOn(TakeCpu, None, pairs, i);
    }
  }

  /** The least usage for which the sample is not exact: it comes out as 384 nanoseconds. */
  lemma CpuSampleWraps() returns (data: string)
    ensures Pairs(data) == [Pair("usage_usec", (TWO_64 - 1) / 1000 + 1)] && StopsAt(TakeCpu, None, Pairs(data), 1)
    ensures After(TakeCpu, None, Pairs(data), 1) == Some(384)
  {
    var pairs := [Pair("usage_usec", (TWO_64 - 1) / 1000 + 1)];
    data := SomeFile(pairs);
    assert !GoesOn(TakeCpu, None, pairs, 0);
    assert After(TakeCpu, None, pairs, 0) == None;
  }

  // ---- One sample ----

  // readCgroupV2File, once the file is read.
  function SingleValue(data: string): Option<nat> {
    ParseUint(TrimSpace(data))
  }

  lemma {:induction false} SpacesAreTrimmedLeft(before: string, s: string)
    requires (forall k | 0 <= k < |before| :: AsciiSpace(before[k])) && LeadingSpace(s) == 0
    ensures TrimLeft(before + s) == s
  {
    var all := before + s;
    if before == [] {
      assert all == s;
    } else {
      assert all[0] == before[0] && all[1..] == before[1..] + s;
      SpacesAreTrimmedLeft(before[1..], s);
    }
  }

  lemma {:induction false} SpacesAreTrimmedRight(s: string, after: string)
    requires (forall k | 0 <= k < |after| :: AsciiSpace(after[k])) && TrailingSpace(s) == 0
    ensures TrimRight(s + after) == s
  {
    var all := s + after;
    if after == [] {
      assert all == s;
    } else {
      var n := |after| - 1;
      assert all[|all| - 1] == after[n] && all[..|all| - 1] == s + after[..n];
      SpacesAreTrimmedRight(s, after[..n]);
    }
  }

  /** A file that holds a number, in white space or not, is read as that number; "max" and an empty file are not
      read. */
  lemma NumberIsRead(n: nat, before: string, after: string)
    requires n < TWO_64
    requires (forall k | 0 <= k < |before| :: AsciiSpace(before[k]))
             && forall k | 0 <= k < |after| :: AsciiSpace(after[k])
    ensures SingleValue(before + Decimal(n) + after) == Some(n)
    ensures SingleValue("max\n") == None && SingleValue([]) == None
  {
    var digits := Decimal(n);
    assert IsDigit(digits[0]) && IsDigit(digits[|digits| - 1]);
    assert before + digits + after == before + (digits + after);
    assert (digits + after)[0] == digits[0];
    SpacesAreTrimmedLeft(before, digits + after);
    SpacesAreTrimmedRight(digits, after);
    assert "max\n" == "max" + "\n";
    SpacesAreTrimmedRight("max", "\n");
    assert TrimLeft("max\n") == "max\n";
    assert !IsDigit("max"[0]);
  }

  // data holds these digits and no others.
  ghost predicate HoldsOnly(data: string, digits: string) {
    exists i, j | 0 <= i <= j <= |data| ::
      && data[i..j] == digits
      && forall k | 0 <= k < i || j <= k < |data| :: !IsDigit(data[k])
  }

  lemma {:induction false} TrimmedLeftIsASuffix(s: string) returns (i: nat)
    ensures i <= |s| && TrimLeft(s) == s[i..] && forall k | 0 <= k < i :: !IsDigit(s[k])
    decreases |s|
  {
    var n := LeadingSpace(s);
    i := n;
    if n > 0 {
      var rest := TrimmedLeftIsASuffix(s[n..]);
      i := n + rest;
      assert forall k | n <= k < i :: s[k] == s[n..][k - n];
    }
  }

  lemma {:induction false} TrimmedRightIsAPrefix(s: string) returns (j: nat)
    ensures j <= |s| && TrimRight(s) == s[..j] && forall k | j <= k < |s| :: !IsDigit(s[k])
    decreases |s|
  {
    var n := TrailingSpace(s);
    j := |s| - n;
    if n > 0 {
      var shorter := s[..|s| - n];
      j := TrimmedRightIsAPrefix(shorter);
      assert forall k | j <= k < |shorter| :: s[k] == shorter[k];
    }
  }

  /** What is read is in the file: its digits, all of them, and in decimal. */
  lemma WhatIsReadIsThere(data: string)
    ensures SingleValue(data).Some? ==>
              exists digits :: AllDigits(digits) && digits != [] && ValueOf(digits) == SingleValue(data).value
                               && HoldsOnly(data, digits)
    ensures ValueOf("1024") == 1024 && Decimal(1024) == "1024"
  {
    var digits := TrimSpace(data);
    var i := TrimmedLeftIsASuffix(data);
    var j := TrimmedRightIsAPrefix(data[i..]);
    assert data[i..i + j] == digits;
    forall k | 0 <= k < i || i + j <= k < |data|
      ensures !IsDigit(data[k])
    {
      assert k >= i ==> data[i..][k - i] == data[k];
    }
    assert HoldsOnly(data, digits);
    assert "1024"[..3] == "102" && "102"[..2] == "10" && "10"[..1] == "1" && "1"[..0] == "";
    assert ValueOf("") == 0 && ValueOf("1") == 1 && ValueOf("10") == 10 && ValueOf("102") == 102;
    assert Decimal(1) == "1" && Decimal(10) == "10" && Decimal(102) == "102";
  }

  /** A small file: an anon line, a line with no number, one without a space, and a padded file line. */
  lemma SomeLines()
    ensures Pairs("anon 12\nmax max\nodd\nfile  7\t") == [Pair("anon", 12), Pair("file", 7)]
  {
    LinesAreParsed();
    hide *;
    PairsOf("anon 12", "max max\nodd\nfile  7\t");
    PairsOf("max max", "odd\nfile  7\t");
    PairsOf("odd", "file  7\t");
    LastPairsOf("file  7\t");
    assert "odd" + ['\n'] + "file  7\t" == "odd\nfile  7\t";
    assert "max max" + ['\n'] + "odd\nfile  7\t" == "max max\nodd\nfile  7\t";
    assert "anon 12" + ['\n'] + "max max\nodd\nfile  7\t" == "anon 12\nmax max\nodd\nfile  7\t";
  }

  lemma PairsOf(line: string, rest: string)
    requires '\n' !in line
    ensures var p := ParseLine(line);
            Pairs(line + ['\n'] + rest) == (if p.Some? then [p.value] else []) + Pairs(rest)
  {
    FirstLineOf(line, rest);
    PairsOfFirstLine(line + ['\n'] + rest);
  }

  lemma LastPairsOf(line: string)
    requires '\n' !in line && line != []
    ensures var p := ParseLine(line); Pairs(line) == if p.Some? then [p.value] else []
  {
    FirstLineOf(line, []);
    PairsOfFirstLine(line);
    NoPairsInNothing();
  }

  lemma LinesAreParsed()
    ensures ParseLine("anon 12") == Some(Pair("anon", 12)) && ParseLine("file  7\t") == Some(Pair("file", 7))
    ensures ParseLine("max max") == None && ParseLine("odd") == None
  {
    SmallNumbers();
    OthersAreNotParsed();
    hide *;
    LineWithSpace("anon", "12");
    LineWithSpace("file", " 7\t");
    LineWithSpace("max", "max");
    assert "anon" + " " + "12" == "anon 12" && "file" + " " + " 7\t" == "file  7\t";
    assert "max" + " " + "max" == "max max";
  }

  lemma SmallNumbers()
    ensures SingleValue("12") == Some(12) && SingleValue(" 7\t") == Some(7)
  {
    assert Decimal(1) == "1" && Decimal(12) == "12" && Decimal(7) == "7";
    hide *;
    NumberInSpaces(12, "", "");
    NumberInSpaces(7, " ", "\t");
    assert "" + "12" + "" == "12" && " " + "7" + "\t" == " 7\t";
  }

  lemma NumberInSpaces(n: nat, before: string, after: string)
    requires n < TWO_64 && before in ["", " "] && after in ["", "\t"]
    ensures SingleValue(before + Decimal(n) + after) == Some(n)
  {
    NumberIsRead(n, before, after);
  }

  lemma OthersAreNotParsed()
    ensures ParseLine("odd") == None && SingleValue("max") == None
  {
    assert IndexOf("odd", ' ') == 3;
    assert TrimSpace("max") == "max" && !IsDigit("max"[0]);
  }

  lemma LineWithSpace(key: string, rest: string)
    requires ' ' !in key
    ensures var v := SingleValue(rest);
            ParseLine(key + " " + rest) == if v.Some? then Some(Pair(key, v.value)) else None
  {
    SplitAt(key, rest);
  }

  lemma SplitAt(key: string, rest: string)
    requires ' ' !in key
    ensures IndexOf(key + " " + rest, ' ') == |key| && (key + " " + rest)[..|key|] == key
    ensures (key + " " + rest)[|key| + 1..] == rest
  {
    var line := key + " " + rest;
    assert line[|key|] == ' ';
    assert forall k | 0 <= k < |key| :: line[k] == key[k];
  }

  datatype Stats = Stats(memory: Memory, cpuNsec: Option<nat>)

  ghost predicate HasKey(file: Option<string>, key: string) {
    file.Some? && exists p :: p in Pairs(file.value) && p.key == key
  }

  lemma {:induction false} MeasuredWhenSeen(m: Memory, pairs: seq<Pair>, n: nat)
    requires n <= |pairs|
    ensures var a := After(TakeMemory, m, pairs, n);
            && (a.haveAnon <==> m.haveAnon || exists i | 0 <= i < n :: pairs[i].key == "anon")
            && (a.haveFile <==> m.haveFile || exists i | 0 <= i < n :: pairs[i].key == "file")
            && a.usage == m.usage && m.measured <= a.measured
  {
    if n > 0 {
      MeasuredWhenSeen(m, pairs, n - 1);
    }
  }

  // An early stop misses no key altogether.
  lemma EveryKeyIsSeen(m: Memory, pairs: seq<Pair>, n: nat)
    requires !m.haveAnon && !m.haveFile && StopsAt(TakeMemory, m, pairs, n)
    ensures var a := After(TakeMemory, m, pairs, n);
            && (a.haveAnon <==> exists p :: p in pairs && p.key == "anon")
            && (a.haveFile <==> exists p :: p in pairs && p.key == "file")
            && (a.measured != m.measured <==> a.haveAnon || a.haveFile)
  {
    MeasuredWhenSeen(m, pairs, n);
    ReportGrows(m, pairs, 0, n);
    if n < |pairs| {
      assert !GoesOn(TakeMemory, m, pairs, n - 1);
    }
  }

  // What memory.current alone comes to.
  function Unscanned(memCurrent: Option<string>): Memory {
    var usage := if memCurrent.Some? then SingleValue(memCurrent.value) else None;
    if usage.Some? then Memory(usage.value, 0, 0, ["Usage"], false, false) else Memory(0, 0, 0, [], false, false)
  }

  /** getCgroupV2Stats, given what reading the three files came to (None for a failed read) and whether the
      unit is still registered when its CPU sample is taken. There is a sample exactly when anything at all
      was measured, and what is measured is what the files hold. */
  method GetCgroupV2Stats(memCurrent: Option<string>, memStat: Option<string>, cpuStat: Option<string>,
                          registered: bool)
    returns (stats: Option<Stats>)
    ensures var usage := if memCurrent.Some? then SingleValue(memCurrent.value) else None;
            && (stats.Some? <==> || usage.Some? || HasKey(memStat, "anon") || HasKey(memStat, "file")
                                 || (registered && HasKey(cpuStat, "usage_usec")))
            && (stats.Some? ==>
                  var m := stats.value.memory;
                  && m.usage == (if usage.Some? then usage.value else 0)
                  && (m.measured != [] && m.measured[0] == "Usage" <==> usage.Some?)
                  && (m.haveAnon <==> HasKey(memStat, "anon"))
                  && (m.haveFile <==> HasKey(memStat, "file"))
                  && (stats.value.cpuNsec.Some? <==> registered && HasKey(cpuStat, "usage_usec")))
    ensures stats.Some? ==>
              stats.value.cpuNsec == if registered && cpuStat.Some? then Sample(Pairs(cpuStat.value)) else None
    ensures stats.Some? && memStat.None? ==> stats.value.memory == Unscanned(memCurrent)
    ensures stats.Some? && memStat.Some? ==>
              exists n :: StopsAt(TakeMemory, Unscanned(memCurrent), Pairs(memStat.value), n)
                          && stats.value.memory == After(TakeMemory, Unscanned(memCurrent), Pairs(memStat.value), n)
    ensures stats.Some? && memStat.Some? ==>
              exists n: nat :: UpToBoth(Pairs(memStat.value), n)
                          && Holds(Unscanned(memCurrent), Pairs(memStat.value)[..n], stats.value.memory)
    ensures stats.Some? && memStat.Some?
            && CountKey(Pairs(memStat.value), "anon") <= 1 && CountKey(Pairs(memStat.value), "file") <= 1 ==>
              SameReport(stats.value.memory, FullScan(Unscanned(memCurrent), Pairs(memStat.value)))
  {
    hide Pairs, SingleValue;
    var memory := Memory(0, 0, 0, [], false, false);
    if memCurrent.Some? {
      var usage := SingleValue(memCurrent.value);
      if usage.Some? {
        memory := memory.(usage := usage.value, measured := ["Usage"]);
      }
    }
    assert memory == Unscanned(memCurrent);
    if memStat.Some? {
      ghost var start := memory;
      var calls;
      memory, calls := ScanCgroupKeyValue(memStat.value, TakeMemory, memory);
      assert StopsAt(TakeMemory, start, Pairs(memStat.value), calls);
      MeasuredWhenSeen(start, Pairs(memStat.value), calls);
      EveryKeyIsSeen(start, Pairs(memStat.value), calls);
      MemoryIsWhatTheLinesSay(start, Pairs(memStat.value), calls);
      FirstIsNotUsage(start, Pairs(memStat.value), calls);
      if CountKey(Pairs(memStat.value), "anon") <= 1 && CountKey(Pairs(memStat.value), "file") <= 1 {
        EarlyExitKeepsTheReport(start, Pairs(memStat.value), calls);
      }
    }
    var cpuNsec: Option<nat> := None;
    if cpuStat.Some? {
      var calls;
      cpuNsec, calls := ScanCgroupKeyValue(cpuStat.value, TakeCpu, cpuNsec);
      SampleIsTheScans(Pairs(cpuStat.value), calls);
      // calculateCPUPercent drops the sample of a unit that is gone.
      if !registered {
        cpuNsec := None;
      }
    }
    if |memory.measured| > 0 || cpuNsec.Some? {
      stats := Some(Stats(memory, cpuNsec));
    } else {
      stats := None;
    }
  }

  predicate Has(pairs: seq<Pair>, key: string) {
    exists i | 0 <= i < |pairs| :: pairs[i].key == key
  }

  // v is the last value the key has, or none if it has no value.
  predicate LastValue(pairs: seq<Pair>, key: string, v: nat, none: nat) {
    if Has(pairs, key) then
      exists i | 0 <= i < |pairs| :: pairs[i] == Pair(key, v) && forall j | i < j < |pairs| :: pairs[j].key != key
    else v == none
  }

  // The first n pairs are those up to the one that completes an anon and a file line, or else all.
  predicate UpToBoth(pairs: seq<Pair>, n: nat) {
    && n <= |pairs|
    && (n < |pairs| ==> Has(pairs[..n], "anon") && Has(pairs[..n], "file"))
    && (n > 0 ==> !Has(pairs[..n - 1], "anon") || !Has(pairs[..n - 1], "file"))
  }

  // What a sample says that started as before and read these pairs.
  predicate Holds(before: Memory, pairs: seq<Pair>, after: Memory) {
    && LastValue(pairs, "anon", after.rss, before.rss) && LastValue(pairs, "file", after.cache, before.cache)
    && after.usage == before.usage
    && ("RSS" in after.measured <==> "RSS" in before.measured || Has(pairs, "anon"))
    && ("Cache" in after.measured <==> "Cache" in before.measured || Has(pairs, "file"))
  }

  lemma LastValueStep(pairs: seq<Pair>, n: nat, key: string, v: nat, none: nat)
    requires n < |pairs| && LastValue(pairs[..n], key, v, none)
    ensures Has(pairs[..n + 1], key) <==> Has(pairs[..n], key) || pairs[n].key == key
    ensures LastValue(pairs[..n + 1], key, if pairs[n].key == key then pairs[n].value else v, none)
  {
    var a, b := pairs[..n], pairs[..n + 1];
    assert forall i | 0 <= i < n :: a[i] == b[i];
    assert b[n] == pairs[n];
  }

  lemma {:induction false} ReadSoFar(m: Memory, pairs: seq<Pair>, n: nat)
    requires n <= |pairs|
    ensures Holds(m, pairs[..n], After(TakeMemory, m, pairs, n))
  {
    if n > 0 {
      ReadSoFar(m, pairs, n - 1);
      var a := After(TakeMemory, m, pairs, n - 1);
      LastValueStep(pairs, n - 1, "anon", a.rss, m.rss);
      LastValueStep(pairs, n - 1, "file", a.cache, m.cache);
    }
  }

  /** RSS and Cache are the last values of anon and file among the lines up to the one that completes the two,
      and are measured exactly if there is such a line. */
  lemma MemoryIsWhatTheLinesSay(m: Memory, pairs: seq<Pair>, n: nat)
    requires !m.haveAnon && !m.haveFile && StopsAt(TakeMemory, m, pairs, n)
    ensures UpToBoth(pairs, n) && Holds(m, pairs[..n], After(TakeMemory, m, pairs, n))
  {
    hide TakeMemory, Has, Holds, GoesOn, After;
    ReadSoFar(m, pairs, n);
    if n > 0 {
      GoesOnWithoutBoth(m, pairs, n - 1);
    }
    if n > 1 {
      GoesOnWithoutBoth(m, pairs, n - 2);
      assert GoesOn(TakeMemory, m, pairs, n - 2);
    } else {
      NothingIsSeenInNothing(pairs);
    }
  }

  lemma GoesOnWithoutBoth(m: Memory, pairs: seq<Pair>, k: nat)
    requires !m.haveAnon && !m.haveFile && k < |pairs|
    ensures GoesOn(TakeMemory, m, pairs, k) <==> !Has(pairs[..k + 1], "anon") || !Has(pairs[..k + 1], "file")
  {
    KeysSeen(m, pairs, k + 1);
  }

  lemma NothingIsSeenInNothing(pairs: seq<Pair>)
    ensures !Has(pairs[..0], "anon")
  {
  }

  lemma KeysSeen(m: Memory, pairs: seq<Pair>, n: nat)
    requires !m.haveAnon && !m.haveFile && n <= |pairs|
    ensures After(TakeMemory, m, pairs, n).haveAnon <==> Has(pairs[..n], "anon")
    ensures After(TakeMemory, m, pairs, n).haveFile <==> Has(pairs[..n], "file")
  {
    MeasuredWhenSeen(m, pairs, n);
    assert forall i | 0 <= i < n :: pairs[..n][i] == pairs[i];
  }

  lemma {:induction false} FirstIsNotUsage(m: Memory, pairs: seq<Pair>, n: nat)
    requires n <= |pairs| && (m.measured == [] || m.measured == ["Usage"])
    ensures var a := After(TakeMemory, m, pairs, n).measured;
            if m.measured == [] then a == [] || a[0] != "Usage" else a != [] && a[0] == "Usage"
  {
    if n > 0 {
      FirstIsNotUsage(m, pairs, n - 1);
    }
  }

  lemma SampleIsTheScans(pairs: seq<Pair>, n: nat)
    requires StopsAt(TakeCpu, None, pairs, n)
    ensures After(TakeCpu, None, pairs, n) == Sample(pairs)
    ensures Sample(pairs).Some? <==> exists p :: p in pairs && p.key == "usage_usec"
  {
    CpuIsTheFirstUsage(pairs, n, FirstUsage(pairs));
  }

  // The first usage_usec, in nanoseconds.
  function Sample(pairs: seq<Pair>): Option<nat> {
    var i := FirstUsage(pairs);
    if i < |pairs| then Some(pairs[i].value * 1000 % TWO_64) else None
  }

  function FirstUsage(pairs: seq<Pair>): (i: nat)
    ensures i <= |pairs| && (forall k | 0 <= k < i :: pairs[k].key != "usage_usec")
    ensures i < |pairs| ==> pairs[i].key == "usage_usec"
  {
    if pairs == [] || pairs[0].key == "usage_usec" then 0 else 1 + FirstUsage(pairs[1..])
  }
}
