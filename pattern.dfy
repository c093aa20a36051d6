/**
 * The per-line search of the log extractor: `re.search` with the pattern
 * `step:(\d+)/(\d+)\s+val_loss:([\d.]+)`. An occurrence is described declaratively
 * (the text at its start spells out the pattern), and `MatchLine` is shown to
 * return the leftmost one, with the longest loss token at that start, which is
 * the occurrence Python's backtracking matcher reports.
 */
module LogPattern {
  import opened Wrappers
  import opened Chars

  /**
   * One occurrence of the pattern in a line: where it starts, the text of the
   * three groups (step, total, loss) and the whitespace between total and `val_loss:`.
   */
  datatype Occurrence = Occurrence(start: nat, step: string, total: string, gap: string, loss: string)

  /** The text an occurrence spans. */
  function Text(o: Occurrence): string {
    "step:" + o.step + "/" + o.total + o.gap + "val_loss:" + o.loss
  }

  /** The position just past an occurrence, `o.start + |Text(o)|` (see `OccursSpellsText`). */
  function End(o: Occurrence): nat {
    o.start + 5 + |o.step| + 1 + |o.total| + |o.gap| + 9 + |o.loss|
  }

  /** Each part has the shape the pattern gives it: `\d+`, `\d+`, `\s+` and `[\d.]+`. */
  ghost predicate WellFormed(o: Occurrence) {
    && |o.step| > 0 && AllIn(o.step, Digit)
    && |o.total| > 0 && AllIn(o.total, Digit)
    && |o.gap| > 0 && AllIn(o.gap, Space)
    && |o.loss| > 0 && AllIn(o.loss, DigitOrDot)
  }

  /** The text `s` is written in `line` from position `i` on. */
  predicate WrittenAt(line: string, i: nat, s: string) {
    i + |s| <= |line| && forall j :: 0 <= j < |s| ==> line[i + j] == s[j]
  }

  /**
   * `o` is a match of the pattern found in `line` at `o.start`: its parts are well
   * formed and written, one after the other, in the line from there on.
   * `OccursSpellsText` restates this as `line[o.start..End(o)] == Text(o)`.
   */
  ghost predicate Occurs(line: string, o: Occurrence) {
    var a := o.start + 5;
    var b := a + |o.step|;
    var d := b + 1 + |o.total|;
    var e := d + |o.gap|;
    && WellFormed(o)
    && WrittenAt(line, o.start, "step:")
    && WrittenAt(line, a, o.step)
    && WrittenAt(line, b, "/")
    && WrittenAt(line, b + 1, o.total)
    && WrittenAt(line, d, o.gap)
    && WrittenAt(line, e, "val_loss:")
    && WrittenAt(line, e + 9, o.loss)
  }

  lemma WrittenAtIsSlice(line: string, i: nat, s: string)
    ensures WrittenAt(line, i, s) <==> i + |s| <= |line| && line[i..i + |s|] == s
  {
    if WrittenAt(line, i, s) {
      assert forall j :: 0 <= j < |s| ==> line[i..i + |s|][j] == s[j];
    }
  }

  lemma WrittenAtConcat(line: string, i: nat, p: string, q: string)
    ensures WrittenAt(line, i, p + q) <==> WrittenAt(line, i, p) && WrittenAt(line, i + |p|, q)
  {
    if WrittenAt(line, i, p + q) {
      assert forall j :: 0 <= j < |p| ==> (p + q)[j] == p[j];
      assert forall j :: 0 <= j < |q| ==> (p + q)[|p| + j] == q[j];
    }
    if WrittenAt(line, i, p) && WrittenAt(line, i + |p|, q) {
      forall j | 0 <= j < |p + q| ensures line[i + j] == (p + q)[j] {
        if j >= |p| {
          assert line[i + |p| + (j - |p|)] == q[j - |p|];
        }
      }
    }
  }

  lemma CharAt(line: string, i: nat, s: string, j: nat)
    requires WrittenAt(line, i, s)
    ensures j < |s| ==> line[i + j] == s[j]
  {
  }

  /** An occurrence is the text of the whole match written at its start. */
  lemma OccursWritesText(line: string, o: Occurrence)
    ensures End(o) == o.start + |Text(o)|
    ensures Occurs(line, o) <==> WellFormed(o) && WrittenAt(line, o.start, Text(o))
  {
    var t1 := "step:" + o.step;
    var t2 := t1 + "/";
    var t3 := t2 + o.total;
    var t4 := t3 + o.gap;
    var t5 := t4 + "val_loss:";
    assert Text(o) == t5 + o.loss;
    WrittenAtConcat(line, o.start, t5, o.loss);
    WrittenAtConcat(line, o.start, t4, "val_loss:");
    WrittenAtConcat(line, o.start, t3, o.gap);
    WrittenAtConcat(line, o.start, t2, o.total);
    WrittenAtConcat(line, o.start, t1, "/");
    WrittenAtConcat(line, o.start, "step:", o.step);
  }

  /** The slice of the line from an occurrence's start to its end is the text of the match. */
  lemma OccursSpellsText(line: string, o: Occurrence)
    ensures Occurs(line, o) <==> WellFormed(o) && End(o) <= |line| && line[o.start..End(o)] == Text(o)
  {
    OccursWritesText(line, o);
    WrittenAtIsSlice(line, o.start, Text(o));
  }

  /** The length of the longest run of class-`k` characters in `line` from position `i`. */
  function Run(line: string, i: nat, k: CharClass): (n: nat)
    requires i <= |line|
    ensures i + n <= |line|
    ensures i + n == |line| || !InClass(line[i + n], k)
    decreases |line| - i
  {
    if i < |line| && InClass(line[i], k) then 1 + Run(line, i + 1, k) else 0
  }

  /** Every character of the run is of class `k`. */
  lemma {:induction false} RunInClass(line: string, i: nat, k: CharClass)
    requires i <= |line|
    ensures forall j :: i <= j < i + Run(line, i, k) ==> InClass(line[j], k)
    decreases |line| - i
  {
    if i < |line| && InClass(line[i], k) {
      RunInClass(line, i + 1, k);
    }
  }

  /** Any run of class-`k` characters from `i` is at most as long as the longest one. */
  lemma {:induction false} RunCovers(line: string, i: nat, k: CharClass, m: nat)
    requires i + m <= |line| && forall j :: i <= j < i + m ==> InClass(line[j], k)
    ensures m <= Run(line, i, k)
    decreases m
  {
    if m > 0 {
      RunCovers(line, i + 1, k, m - 1);
    }
  }

  /** The characters of a class-`k` text written at `i` are of class `k` at their positions. */
  lemma WrittenInClass(line: string, i: nat, s: string, k: CharClass)
    requires WrittenAt(line, i, s) && AllIn(s, k)
    ensures forall j :: i <= j < i + |s| ==> InClass(line[j], k)
  {
    forall j | i <= j < i + |s| ensures InClass(line[j], k) {
      assert line[i + (j - i)] == s[j - i];
    }
  }

  /** A class-`k` text written at `i` and followed by a character outside `k` is the run there. */
  lemma WrittenRun(line: string, i: nat, s: string, k: CharClass, t: string)
    requires WrittenAt(line, i, s) && AllIn(s, k)
    requires WrittenAt(line, i + |s|, t) && |t| > 0 && !InClass(t[0], k)
    ensures Run(line, i, k) == |s|
  {
    CharAt(line, i + |s|, t, 0);
    WrittenInClass(line, i, s, k);
    RunCovers(line, i, k, |s|);
    RunInClass(line, i, k);
  }

  /** A class-`k` text written at `i` lies within the run there. */
  lemma WrittenWithinRun(line: string, i: nat, s: string, k: CharClass)
    requires WrittenAt(line, i, s) && AllIn(s, k)
    ensures |s| <= Run(line, i, k)
  {
    WrittenInClass(line, i, s, k);
    RunCovers(line, i, k, |s|);
  }

  /**
   * `o` occurs in `line` and its loss token cannot be extended: it ends at the end
   * of the line or before a character that is neither a digit nor a dot.
   */
  ghost predicate Greedy(line: string, o: Occurrence) {
    Occurs(line, o) && (End(o) == |line| || !InClass(line[End(o)], DigitOrDot))
  }

  /**
   * The match `re.match` would find at exactly position `i`: each quantified part
   * takes the longest run of its class. `MatchAtSound` shows that whatever it finds
   * is an occurrence at `i` whose loss token cannot be extended, and
   * `MatchAtComplete` states the converse.
   */
  function MatchAt(line: string, i: nat): (r: Option<Occurrence>)
    requires i <= |line|
    ensures r.Some? ==> r.value.start == i
  {
    match Scan(line, i)
    case None => None
    case Some(p) => Some(Occurrence(i, line[i + 5..p.b], line[p.b + 1..p.d], line[p.d..p.e], line[p.e + 9..p.g]))
  }

  /**
   * Where the four quantified parts of a match at `i` end: `b` after the step
   * digits (where the `/` is), `d` after the total digits, `e` after the
   * whitespace (where `val_loss:` is) and `g` after the loss token.
   */
  datatype Ends = Ends(b: nat, d: nat, e: nat, g: nat)

  /** The ends `re.match` at `i` reaches by taking the longest run of each part's class. */
  function Scan(line: string, i: nat): (r: Option<Ends>)
    requires i <= |line|
    ensures r.Some? ==> i + 5 < r.value.b < r.value.b + 1 < r.value.d < r.value.e
    ensures r.Some? ==> r.value.e + 9 < r.value.g <= |line|
  {
    if !WrittenAt(line, i, "step:") then None
    else
      var b := i + 5 + Run(line, i + 5, Digit);
      if b == i + 5 || !WrittenAt(line, b, "/") then None
      else
        var d := b + 1 + Run(line, b + 1, Digit);
        var e := d + Run(line, d, Space);
        if d == b + 1 || e == d || !WrittenAt(line, e, "val_loss:") then None
        else
          var g := e + 9 + Run(line, e + 9, DigitOrDot);
          if g == e + 9 then None else Some(Ends(b, d, e, g))
  }

  /** Where `Scan` finds the parts end when every part is present. */
  lemma ScanFound(line: string, i: nat)
    requires i <= |line| && WrittenAt(line, i, "step:")
    requires var b := i + 5 + Run(line, i + 5, Digit);
      && b > i + 5 && WrittenAt(line, b, "/")
      && var d := b + 1 + Run(line, b + 1, Digit);
         var e := d + Run(line, d, Space);
         && d > b + 1 && e > d && WrittenAt(line, e, "val_loss:")
         && Run(line, e + 9, DigitOrDot) > 0
    ensures var b := i + 5 + Run(line, i + 5, Digit);
      var d := b + 1 + Run(line, b + 1, Digit);
      var e := d + Run(line, d, Space);
      var g := e + 9 + Run(line, e + 9, DigitOrDot);
      Scan(line, i) == Some(Ends(b, d, e, g))
  {
  }

  /** A text written at `f` is a prefix of any longer slice of the line from `f`. */
  lemma WrittenPrefix(line: string, f: nat, s: string, g: nat)
    requires WrittenAt(line, f, s) && f + |s| <= g <= |line|
    ensures s <= line[f..g]
  {
    WrittenAtIsSlice(line, f, s);
    assert line[f..g][..|s|] == line[f..f + |s|];
  }

  /** A slice whose positions are all of class `k` is a class-`k` text written there. */
  lemma SliceInClass(line: string, a: nat, b: nat, k: CharClass)
    requires a <= b <= |line| && forall j :: a <= j < b ==> InClass(line[j], k)
    ensures WrittenAt(line, a, line[a..b]) && AllIn(line[a..b], k)
  {
    WrittenAtIsSlice(line, a, line[a..b]);
    forall j | 0 <= j < b - a ensures InClass(line[a..b][j], k) {
      assert line[a..b][j] == line[a + j];
    }
  }

  /** The nonempty run measured from `a` to `b` is a class-`k` text `s` written at `a`. */
  lemma RunWritten(line: string, a: nat, b: nat, k: CharClass, s: string)
    requires a <= |line| && b == a + Run(line, a, k) && b > a && s == line[a..b]
    ensures |s| == b - a > 0 && WrittenAt(line, a, s) && AllIn(s, k)
  {
    RunInClass(line, a, k);
    SliceInClass(line, a, b, k);
  }

  /** An occurrence put together from its parts, each written where the previous one ends. */
  lemma Assembled(line: string, o: Occurrence, b: nat, d: nat, e: nat, g: nat)
    requires b == o.start + 5 + |o.step| && d == b + 1 + |o.total| && e == d + |o.gap| && g == e + 9 + |o.loss|
    requires WrittenAt(line, o.start, "step:") && WrittenAt(line, b, "/") && WrittenAt(line, e, "val_loss:")
    requires |o.step| > 0 && WrittenAt(line, o.start + 5, o.step) && AllIn(o.step, Digit)
    requires |o.total| > 0 && WrittenAt(line, b + 1, o.total) && AllIn(o.total, Digit)
    requires |o.gap| > 0 && WrittenAt(line, d, o.gap) && AllIn(o.gap, Space)
    requires |o.loss| > 0 && WrittenAt(line, e + 9, o.loss) && AllIn(o.loss, DigitOrDot)
    requires g == |line| || (g < |line| && !InClass(line[g], DigitOrDot))
    ensures Greedy(line, o)
  {
  }

  /** The literals and runs `Scan` checked on its way to the ends it reports. */
  lemma ScanChecked(line: string, i: nat)
    requires i <= |line| && Scan(line, i).Some?
    ensures var p := Scan(line, i).value;
      && WrittenAt(line, i, "step:") && WrittenAt(line, p.b, "/") && WrittenAt(line, p.e, "val_loss:")
      && p.b == i + 5 + Run(line, i + 5, Digit) && p.d == p.b + 1 + Run(line, p.b + 1, Digit)
      && p.e == p.d + Run(line, p.d, Space) && p.g == p.e + 9 + Run(line, p.e + 9, DigitOrDot)
  {
  }

  /** The parts cut from the line at the ends of the runs the scanner measured are well formed. */
  lemma ScannedParts(line: string, o: Occurrence, b: nat, d: nat, e: nat, g: nat)
    requires o.start + 5 <= b < d <= e && e + 9 < g <= |line|
    requires b == o.start + 5 + Run(line, o.start + 5, Digit) && d == b + 1 + Run(line, b + 1, Digit)
    requires e == d + Run(line, d, Space) && g == e + 9 + Run(line, e + 9, DigitOrDot)
    requires b > o.start + 5 && d > b + 1 && e > d
    requires o.step == line[o.start + 5..b] && o.total == line[b + 1..d]
    requires o.gap == line[d..e] && o.loss == line[e + 9..g]
    ensures b == o.start + 5 + |o.step| && d == b + 1 + |o.total| && e == d + |o.gap| && g == e + 9 + |o.loss|
    ensures |o.step| > 0 && WrittenAt(line, o.start + 5, o.step) && AllIn(o.step, Digit)
    ensures |o.total| > 0 && WrittenAt(line, b + 1, o.total) && AllIn(o.total, Digit)
    ensures |o.gap| > 0 && WrittenAt(line, d, o.gap) && AllIn(o.gap, Space)
    ensures |o.loss| > 0 && WrittenAt(line, e + 9, o.loss) && AllIn(o.loss, DigitOrDot)
    ensures g == |line| || (g < |line| && !InClass(line[g], DigitOrDot))
  {
    RunWritten(line, o.start + 5, b, Digit, o.step);
    RunWritten(line, b + 1, d, Digit, o.total);
    RunWritten(line, d, e, Space, o.gap);
    RunWritten(line, e + 9, g, DigitOrDot, o.loss);
  }

  /** The occurrence built from the ends of the runs the scanner measured occurs in the line. */
  lemma ScannedOccurs(line: string, o: Occurrence, b: nat, d: nat, e: nat, g: nat)
    requires o.start + 5 <= b < d <= e && e + 9 < g <= |line|
    requires WrittenAt(line, o.start, "step:") && WrittenAt(line, b, "/") && WrittenAt(line, e, "val_loss:")
    requires b == o.start + 5 + Run(line, o.start + 5, Digit) && d == b + 1 + Run(line, b + 1, Digit)
    requires e == d + Run(line, d, Space) && g == e + 9 + Run(line, e + 9, DigitOrDot)
    requires b > o.start + 5 && d > b + 1 && e > d
    requires o.step == line[o.start + 5..b] && o.total == line[b + 1..d]
    requires o.gap == line[d..e] && o.loss == line[e + 9..g]
    ensures Greedy(line, o)
  {
    ScannedParts(line, o, b, d, e, g);
    Assembled(line, o, b, d, e, g);
  }

  /** Whatever `MatchAt` finds at `i` occurs at `i`, with a loss token that cannot be extended. */
  lemma MatchAtSound(line: string, i: nat)
    requires i <= |line|
    ensures MatchAt(line, i).Some? ==> Greedy(line, MatchAt(line, i).value)
  {
    match Scan(line, i)
    case None =>
    case Some(p) =>
      ScanChecked(line, i);
      var o := Occurrence(i, line[i + 5..p.b], line[p.b + 1..p.d], line[p.d..p.e], line[p.e + 9..p.g]);
      ScannedOccurs(line, o, p.b, p.d, p.e, p.g);
  }

  /** The runs the scanner measures in an occurrence have the lengths of its parts. */
  lemma OccurrenceRuns(line: string, o: Occurrence)
    requires Occurs(line, o)
    ensures var b := o.start + 5 + |o.step|;
      var d := b + 1 + |o.total|;
      var f := d + |o.gap| + 9;
      && Run(line, o.start + 5, Digit) == |o.step|
      && Run(line, b + 1, Digit) == |o.total|
      && Run(line, d, Space) == |o.gap|
      && Run(line, f, DigitOrDot) >= |o.loss|
  {
    var a := o.start + 5;
    var b := a + |o.step|;
    var d := b + 1 + |o.total|;
    var e := d + |o.gap|;
    assert !InClass(o.gap[0], Digit);
    WrittenRun(line, a, o.step, Digit, "/");
    WrittenRun(line, b + 1, o.total, Digit, o.gap);
    WrittenRun(line, d, o.gap, Space, "val_loss:");
    WrittenWithinRun(line, e + 9, o.loss, DigitOrDot);
  }

  /**
   * Any occurrence at position `i` agrees with `MatchAt(line, i)` on the step, the
   * total and the whitespace, and its loss token is a prefix of the one found there.
   */
  lemma MatchAtComplete(line: string, o: Occurrence)
    requires Occurs(line, o)
    ensures MatchAt(line, o.start).Some?
    ensures var m := MatchAt(line, o.start).value;
      m.step == o.step && m.total == o.total && m.gap == o.gap && o.loss <= m.loss
  {
    OccurrenceRuns(line, o);
    var i := o.start;
    var b := i + 5 + |o.step|;
    var d := b + 1 + |o.total|;
    var e := d + |o.gap|;
    var g := e + 9 + Run(line, e + 9, DigitOrDot);
    ScanFound(line, i);
    WrittenAtIsSlice(line, i + 5, o.step);
    WrittenAtIsSlice(line, b + 1, o.total);
    WrittenAtIsSlice(line, d, o.gap);
    WrittenPrefix(line, e + 9, o.loss, g);
  }

  /**
   * At one start position the pattern can match in only one way up to the length of
   * the loss token: the step, the total and the whitespace are determined, and of two
   * loss tokens the shorter is a prefix of the longer.
   */
  lemma OccurrencesAtSameStart(line: string, o1: Occurrence, o2: Occurrence)
    requires Occurs(line, o1) && Occurs(line, o2) && o1.start == o2.start
    ensures o1.step == o2.step && o1.total == o2.total && o1.gap == o2.gap
    ensures o1.loss <= o2.loss || o2.loss <= o1.loss
  {
    MatchAtComplete(line, o1);
    MatchAtComplete(line, o2);
  }

  /** `re.search` from position `i` on: the first position at which the pattern matches. */
  function SearchFrom(line: string, i: nat): (r: Option<Occurrence>)
    requires i <= |line|
    ensures r.Some? ==> i <= r.value.start <= |line| && r == MatchAt(line, r.value.start) && Greedy(line, r.value)
    ensures r.Some? ==> forall o :: Occurs(line, o) && i <= o.start ==> r.value.start <= o.start
    ensures r.None? ==> forall o :: Occurs(line, o) ==> o.start < i
    decreases |line| - i
  {
    MatchAtSound(line, i);
    match MatchAt(line, i)
    case Some(o) => Some(o)
    case None =>
      assert forall o :: Occurs(line, o) ==> o.start != i by {
        forall o | Occurs(line, o) ensures o.start != i {
          if o.start == i { MatchAtComplete(line, o); }
        }
      }
      if i == |line| then None else SearchFrom(line, i + 1)
  }

  /**
   * The occurrence `pattern.search(line)` reports: None exactly when the line holds
   * no occurrence; otherwise the leftmost occurrence, with the longest loss token
   * that can start there, which ends at the end of the line or before a character
   * that is neither a digit nor a dot (`Greedy`).
   */
  function MatchLine(line: string): (r: Option<Occurrence>)
    ensures r.None? ==> forall o :: !Occurs(line, o)
    ensures r.Some? ==> Greedy(line, r.value)
    ensures r.Some? ==> forall o :: Occurs(line, o) ==> r.value.start <= o.start
    ensures r.Some? ==> forall o :: Occurs(line, o) && o.start == r.value.start ==> o.loss <= r.value.loss
  {
    var r := SearchFrom(line, 0);
    assert r.Some? ==> forall o :: Occurs(line, o) && o.start == r.value.start ==> o.loss <= r.value.loss by {
      if r.Some? {
        forall o | Occurs(line, o) && o.start == r.value.start ensures o.loss <= r.value.loss {
          MatchAtComplete(line, o);
        }
      }
    }
    r
  }

  /**
   * The declarative description of what `pattern.search(line)` reports: an
   * occurrence whose loss token cannot be extended and which starts no later than
   * any other occurrence.
   */
  ghost predicate Leftmost(line: string, o: Occurrence) {
    Greedy(line, o) && forall o' :: Occurs(line, o') ==> o.start <= o'.start
  }

  /**
   * Of two occurrences that agree up to the loss token, one with an unextendable
   * loss token is not shorter than the other.
   */
  lemma GreedyLossLongest(line: string, o: Occurrence, r: Occurrence)
    requires Greedy(line, o) && Occurs(line, r)
    requires r.start == o.start && r.step == o.step && r.total == o.total && r.gap == o.gap
    requires o.loss <= r.loss
    ensures o == r
  {
    var f := o.start + 5 + |o.step| + 1 + |o.total| + |o.gap| + 9;
    assert WrittenAt(line, f, r.loss) && AllIn(r.loss, DigitOrDot);
    CharAt(line, f, r.loss, |o.loss|);
  }

  /** There is at most one leftmost occurrence with an unextendable loss token, and `MatchLine` returns it. */
  lemma MatchLineIsLeftmost(line: string, o: Occurrence)
    requires Leftmost(line, o)
    ensures MatchLine(line) == Some(o)
  {
    var m := MatchLine(line);
    assert m.Some?;
    var r := m.value;
    assert r.start <= o.start;
    assert Occurs(line, r);
    assert o.start <= r.start;
    OccurrencesAtSameStart(line, o, r);
    assert o.loss <= r.loss;
    GreedyLossLongest(line, o, r);
  }
}
