/**
 * `parse_log_file`: every line of the log is searched for the pattern, and each
 * line where it is found appends its step to one list and its loss to another.
 * `Extract` specifies the result over the sequence of lines; `ParseLogFile` is
 * the loop that builds the two lists.
 */
module LogExtractor {
  import opened Wrappers
  import opened Chars
  import opened Numbers
  import opened LogPattern

  /** The two lists the extractor returns; they stay aligned index by index. */
  datatype LossSeries = LossSeries(steps: seq<nat>, losses: seq<Decimal>)

  /** The ValueError `float()` raises on a loss token that is not a number. */
  datatype ParseError = InvalidLoss(token: string)

  /** What one line contributes: nothing, one record, or the error that ends the parse. */
  datatype LineResult = Skip | Record(step: nat, loss: Decimal) | Reject(token: string)

  const Empty := LossSeries([], [])

  /**
   * The contribution of one line: the step and the loss of the occurrence
   * `pattern.search` reports, or the rejected loss token.
   */
  function LineRecord(line: string): (r: LineResult)
  {
    match MatchLine(line)
    case None => Skip
    case Some(o) =>
      match ParseDecimal(o.loss)
      case None => Reject(o.loss)
      case Some(loss) => Record(DigitsValue(o.step), loss)
  }

  /**
   * What a line contributes, stated through the occurrence the search reports:
   * the value of its step digits and the decimal its loss token denotes, or
   * the token itself when `float()` rejects it.
   */
  lemma LineRecordOf(line: string, o: Occurrence)
    requires Leftmost(line, o)
    ensures IsFloatToken(o.loss) ==> LineRecord(line) == Record(DigitsValue(o.step), ParseDecimal(o.loss).value)
    ensures !IsFloatToken(o.loss) ==> LineRecord(line) == Reject(o.loss)
  {
    MatchLineIsLeftmost(line, o);
  }

  /**
   * The total is read but never stored: lines whose matches agree on the step
   * and the loss token contribute the same, whatever their totals and the rest
   * of the lines say.
   */
  lemma TotalIgnored(line1: string, o1: Occurrence, line2: string, o2: Occurrence)
    requires Leftmost(line1, o1) && Leftmost(line2, o2)
    requires o1.step == o2.step && o1.loss == o2.loss
    ensures LineRecord(line1) == LineRecord(line2)
  {
    MatchLineIsLeftmost(line1, o1);
    MatchLineIsLeftmost(line2, o2);
  }

  /** What each line contributes, line by line. */
  function LineResults(lines: seq<string>): (rs: seq<LineResult>)
    ensures |rs| == |lines|
  {
    seq(|lines|, j requires 0 <= j < |lines| => LineRecord(lines[j]))
  }

  /**
   * The two lists built from a sequence of line contributions: each record is
   * appended to both lists, and the first rejected token ends the parse with its
   * error instead of a result.
   */
  function Collect(rs: seq<LineResult>): (r: Result<LossSeries, ParseError>)
    ensures r.Success? ==> |r.value.steps| == |r.value.losses| <= |rs|
    decreases |rs|
  {
    if rs == [] then Success(Empty)
    else
      match Collect(rs[..|rs| - 1])
      case Failure(e) => Failure(e)
      case Success(s) =>
        match rs[|rs| - 1]
        case Skip => Success(s)
        case Record(step, loss) => Success(LossSeries(s.steps + [step], s.losses + [loss]))
        case Reject(token) => Failure(InvalidLoss(token))
  }

  /** The result of `parse_log_file` on the lines of a log. */
  function Extract(lines: seq<string>): (r: Result<LossSeries, ParseError>)
    ensures r.Success? ==> |r.value.steps| == |r.value.losses| <= |lines|
  {
    Collect(LineResults(lines))
  }

  /** Once a prefix has failed, the parse of the whole sequence fails with the same error. */
  lemma {:induction false} CollectFailureSticks(rs: seq<LineResult>, n: nat)
    requires n <= |rs| && Collect(rs[..n]).Failure?
    ensures Collect(rs) == Collect(rs[..n])
    decreases |rs|
  {
    if n < |rs| {
      var init := rs[..|rs| - 1];
      assert init[..n] == rs[..n];
      CollectFailureSticks(init, n);
    } else {
      assert rs[..n] == rs;
    }
  }

  /** The positions of the contributions that are records, in increasing order. */
  function Kept(rs: seq<LineResult>): (m: seq<nat>)
    ensures forall k :: 0 <= k < |m| ==> m[k] < |rs| && !rs[m[k]].Skip?
    ensures forall k, l :: 0 <= k < l < |m| ==> m[k] < m[l]
    ensures forall j :: 0 <= j < |rs| && !rs[j].Skip? ==> j in m
    decreases |rs|
  {
    if rs == [] then []
    else
      var m := Kept(rs[..|rs| - 1]);
      if rs[|rs| - 1].Skip? then m else m + [|rs| - 1]
  }

  /**
   * A successful parse holds exactly one record per contribution that is not
   * skipped, in the order of those contributions.
   */
  lemma {:induction false} CollectRecords(rs: seq<LineResult>)
    requires Collect(rs).Success?
    ensures var s, m := Collect(rs).value, Kept(rs);
      && |s.steps| == |m|
      && forall k :: 0 <= k < |m| ==> rs[m[k]] == Record(s.steps[k], s.losses[k])
    decreases |rs|
  {
    if rs != [] {
      CollectRecords(rs[..|rs| - 1]);
    }
  }

  /**
   * The parse fails exactly when some contribution is a rejected token, and the
   * error carries the token of the first one.
   */
  lemma {:induction false} CollectFailure(rs: seq<LineResult>)
    ensures Collect(rs).Failure? <==> exists j :: 0 <= j < |rs| && rs[j].Reject?
    ensures Collect(rs).Failure? ==>
      exists j :: 0 <= j < |rs| && rs[j] == Reject(Collect(rs).error.token)
        && forall i :: 0 <= i < j ==> !rs[i].Reject?
    decreases |rs|
  {
    if rs != [] {
      var init := rs[..|rs| - 1];
      CollectFailure(init);
      assert forall j :: 0 <= j < |init| ==> rs[j] == init[j];
    }
  }

  /**
   * No records and no error exactly when no contribution is a record or a
   * rejected token.
   */
  lemma CollectEmpty(rs: seq<LineResult>)
    ensures Collect(rs) == Success(Empty) <==> forall j :: 0 <= j < |rs| ==> rs[j].Skip?
  {
    CollectFailure(rs);
    if Collect(rs).Success? {
      CollectRecords(rs);
      var m := Kept(rs);
      if |m| > 0 {
        assert !rs[m[0]].Skip?;
      }
    }
  }

  /**
   * A successful parse holds one record per line where the pattern is found, in
   * the order of those lines, each taken from its own line; nothing is sorted,
   * merged or dropped.
   */
  lemma ExtractRecords(lines: seq<string>)
    ensures Extract(lines).Success? ==>
      var s, m := Extract(lines).value, Kept(LineResults(lines));
      && |s.steps| == |m|
      && forall k :: 0 <= k < |m| ==> m[k] < |lines| && LineRecord(lines[m[k]]) == Record(s.steps[k], s.losses[k])
  {
    if Extract(lines).Success? {
      CollectRecords(LineResults(lines));
    }
  }

  /**
   * The parse fails exactly when some line where the pattern is found has a loss
   * token `float()` rejects, and the error carries the token of the first such line.
   */
  lemma ExtractFailure(lines: seq<string>)
    ensures Extract(lines).Failure? <==> exists j :: 0 <= j < |lines| && LineRecord(lines[j]).Reject?
    ensures Extract(lines).Failure? ==>
      exists j :: 0 <= j < |lines| && LineRecord(lines[j]) == Reject(Extract(lines).error.token)
        && forall i :: 0 <= i < j ==> !LineRecord(lines[i]).Reject?
  {
    var rs := LineResults(lines);
    CollectFailure(rs);
    if j :| 0 <= j < |lines| && LineRecord(lines[j]).Reject? {
      assert rs[j].Reject?;
    }
    if Collect(rs).Failure? {
      var j :| 0 <= j < |rs| && rs[j] == Reject(Collect(rs).error.token)
        && forall i :: 0 <= i < j ==> !rs[i].Reject?;
      forall i | 0 <= i < j ensures !LineRecord(lines[i]).Reject? {
        assert rs[i] == LineRecord(lines[i]);
      }
      assert LineRecord(lines[j]) == Reject(Extract(lines).error.token);
    }
  }

  /** A line contributes nothing exactly when the pattern occurs nowhere in it. */
  lemma LineSkipped(line: string)
    ensures LineRecord(line).Skip? <==> forall o :: !Occurs(line, o)
  {
  }

  /**
   * With no line where the pattern occurs (in particular with no lines at all)
   * the result is two empty lists; and two empty lists mean it occurs in no line.
   */
  lemma NoMatchingLines(lines: seq<string>)
    ensures Extract(lines) == Success(Empty) <==> forall j, o :: 0 <= j < |lines| ==> !Occurs(lines[j], o)
  {
    var rs := LineResults(lines);
    CollectEmpty(rs);
    if Extract(lines) == Success(Empty) {
      forall j, o | 0 <= j < |lines| ensures !Occurs(lines[j], o) {
        assert rs[j].Skip?;
        LineSkipped(lines[j]);
      }
    }
    if forall j, o :: 0 <= j < |lines| ==> !Occurs(lines[j], o) {
      forall j | 0 <= j < |lines| ensures rs[j].Skip? {
        LineSkipped(lines[j]);
      }
    }
  }

  /**
   * `parse_log_file` on the lines of a log: for each line where the pattern is
   * found, the step and the total are read as integers and the loss token as a
   * number, and the step and the loss are appended to their lists. The total is
   * read but not kept; a loss token `float()` rejects ends the parse.
   */
  method ParseLogFile(lines: seq<string>) returns (r: Result<LossSeries, ParseError>)
    ensures r == Extract(lines)
  {
    var steps: seq<nat> := [];
    var losses: seq<Decimal> := [];
    ghost var rs := LineResults(lines);
    for i := 0 to |lines|
      invariant Collect(rs[..i]) == Success(LossSeries(steps, losses))
    {
      var m := MatchLine(lines[i]);
      assert rs[..i + 1][..i] == rs[..i] && rs[i] == LineRecord(lines[i]);
      if m.Some? {
        var o := m.value;
        var step := DigitsValue(o.step);
        var totalSteps := DigitsValue(o.total);
        var loss := ParseDecimal(o.loss);
        if loss.None? {
          CollectFailureSticks(rs, i + 1);
          return Failure(InvalidLoss(o.loss));
        }
        steps := steps + [step];
        losses := losses + [loss.value];
      }
    }
    assert rs[..|lines|] == rs;
    return Success(LossSeries(steps, losses));
  }
}
