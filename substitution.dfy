/**
 * `replacePlaceholders`: every '?' of the statement is replaced, left to
 * right, by the rendering of the next parameter: NULL as the keyword, a list
 * as a bracketed comma-separated list of quoted items, anything else quoted.
 * The quoting function of the database connection is a parameter.
 */
module Substitution {
  import opened Outcomes
  import opened Strings
  import opened QueryModel

  /** The text PHP gives a plain value when it is quoted. */
  function PlainText(p: Plain): string {
    match p
    case PNull => ""
    case PInt(n) => IntToString(n)
    case PStr(s) => s
  }

  function QuoteAll(items: seq<Plain>, quote: string -> string): (r: seq<string>)
    ensures |r| == |items|
    ensures forall i :: 0 <= i < |items| ==> r[i] == quote(PlainText(items[i]))
  {
    seq(|items|, i requires 0 <= i < |items| => quote(PlainText(items[i])))
  }

  /** The text one parameter is replaced by. */
  function Render(p: Param, quote: string -> string): string {
    match p
    case Scalar(PNull) => "NULL"
    case Scalar(v) => quote(PlainText(v))
    case List(items) => "(" + Join(",", QuoteAll(items, quote)) + ")"
  }

  /** The statement with its first `|ps|` marks replaced in order. */
  function Fill(s: string, ps: seq<Param>, quote: string -> string): string
    decreases |ps|
  {
    if ps == [] then s
    else
      match IndexOf(s, '?')
      case None => s
      case Some(k) => s[..k] + Render(ps[0], quote) + Fill(s[k + 1..], ps[1..], quote)
  }

  /** `replacePlaceholders`: the substituted statement, or the exception for a count mismatch. */
  function Substitute(s: string, ps: seq<Param>, quote: string -> string): (r: Result<string, Error>)
    ensures r.Err? <==> Count(s, '?') != |ps|
    ensures r.Err? ==> r.error == PlaceholderMismatch
  {
    if Count(s, '?') != |ps| then Err(PlaceholderMismatch) else Ok(Fill(s, ps, quote))
  }

  /** Splitting a statement at its first mark. */
  lemma MarkSplit(t: string, k: nat)
    requires IndexOf(t, '?') == Some(k)
    ensures Count(t, '?') == Count(t[k + 1..], '?') + 1
  {
    assert t == t[..k] + ([t[k]] + t[k + 1..]);
    CountConcat(t[..k], [t[k]] + t[k + 1..], '?');
    CountConcat([t[k]], t[k + 1..], '?');
  }

  /**
   * The loop of `replacePlaceholders`: `strpos` searches from `$offset`, and
   * the offset moves past the inserted text, so marks inside a quoted value
   * are never replaced.
   */
  method ReplacePlaceholders(sqlString: string, parameters: seq<Param>, quote: string -> string)
    returns (r: Result<string, Error>)
    ensures r == Substitute(sqlString, parameters, quote)
  {
    if Count(sqlString, '?') != |parameters| {
      return Err(PlaceholderMismatch);
    }
    ghost var goal := Fill(sqlString, parameters, quote);
    var out := sqlString;
    var offset: nat := 0;
    ProgressStart(sqlString, parameters, quote);
    for i := 0 to |parameters|
      invariant Progress(goal, parameters, quote, out, offset, i)
    {
      var rendered := Render(parameters[i], quote);
      ProgressMark(goal, parameters, quote, out, offset, i);
      var k := IndexOf(out[offset..], '?').value;
      ProgressStep(goal, parameters, quote, out, offset, i, k, rendered);
      out, offset := Splice(out, offset + k, rendered), offset + k + |rendered|;
    }
    ProgressEnd(goal, parameters, quote, out, offset);
    r := Ok(out);
  }

  /** `substr($s, 0, $m) . $t . substr($s, $m + 1)`: the mark at `m` replaced by `t`. */
  function Splice(s: string, m: nat, t: string): string
    requires m < |s|
  {
    s[..m] + t + s[m + 1..]
  }

  /**
   * The loop invariant of `replacePlaceholders`: the text before the offset
   * is final, the text after it still holds one mark per remaining parameter,
   * and filling those in gives the substituted statement.
   */
  ghost predicate Progress(goal: string, parameters: seq<Param>, quote: string -> string, out: string, offset: nat, i: nat) {
    && offset <= |out| && i <= |parameters|
    && Count(out[offset..], '?') == |parameters| - i
    && out[..offset] + Fill(out[offset..], parameters[i..], quote) == goal
  }

  lemma ProgressStart(s: string, parameters: seq<Param>, quote: string -> string)
    requires Count(s, '?') == |parameters|
    ensures Progress(Fill(s, parameters, quote), parameters, quote, s, 0, 0)
  {
    assert s[..0] == "" && s[0..] == s;
    assert parameters[0..] == parameters;
  }

  lemma ProgressEnd(goal: string, parameters: seq<Param>, quote: string -> string, out: string, offset: nat)
    requires Progress(goal, parameters, quote, out, offset, |parameters|)
    ensures out == goal
  {
    assert parameters[|parameters|..] == [];
    assert out[..offset] + out[offset..] == out;
  }

  /** `strpos($sqlString, '?', $offset)` finds a mark while parameters remain. */
  lemma ProgressMark(goal: string, parameters: seq<Param>, quote: string -> string, out: string, offset: nat, i: nat)
    requires Progress(goal, parameters, quote, out, offset, i) && i < |parameters|
    ensures offset <= |out| && IndexOf(out[offset..], '?').Some?
  {
  }

  /** One iteration of the loop replaces the next mark and keeps the invariant. */
  lemma ProgressStep(goal: string, parameters: seq<Param>, quote: string -> string,
                     out: string, offset: nat, i: nat, k: nat, rendered: string)
    requires Progress(goal, parameters, quote, out, offset, i) && i < |parameters|
    requires IndexOf(out[offset..], '?') == Some(k) && rendered == Render(parameters[i], quote)
    ensures offset + k < |out|
    ensures Progress(goal, parameters, quote, Splice(out, offset + k, rendered), offset + k + |rendered|, i + 1)
  {
    var done, todo := out[..offset], out[offset..];
    assert out == done + todo;
    ReplaceStep(goal, parameters, quote, done, todo, i, k);
    SpliceParts(out, done, todo, offset, k, rendered);
    var out', done' := Splice(out, offset + k, rendered), done + (todo[..k] + rendered);
    assert out' == done' + todo[k + 1..];
    assert out'[..offset + k + |rendered|] == done';
    assert out'[offset + k + |rendered|..] == todo[k + 1..];
  }

  /** One iteration of the loop of `replacePlaceholders` keeps its invariant. */
  lemma ReplaceStep(goal: string, parameters: seq<Param>, quote: string -> string,
                    done: string, todo: string, i: nat, k: nat)
    requires i < |parameters|
    requires IndexOf(todo, '?') == Some(k)
    requires Count(todo, '?') == |parameters| - i
    requires done + Fill(todo, parameters[i..], quote) == goal
    ensures Count(todo[k + 1..], '?') == |parameters| - (i + 1)
    ensures (done + (todo[..k] + Render(parameters[i], quote))) + Fill(todo[k + 1..], parameters[i + 1..], quote) == goal
  {
    MarkSplit(todo, k);
    FillStep(todo, parameters, i, k, quote);
    Assoc(done, todo[..k] + Render(parameters[i], quote), Fill(todo[k + 1..], parameters[i + 1..], quote));
  }

  /** Replacing the mark at position `k` of the searched text splits the statement anew. */
  lemma SpliceParts(out: string, done: string, todo: string, offset: nat, k: nat, rendered: string)
    requires out == done + todo && offset == |done| && k < |todo|
    ensures offset + k < |out|
    ensures out[..offset + k] + rendered + out[offset + k + 1..] == (done + (todo[..k] + rendered)) + todo[k + 1..]
    ensures offset + k + |rendered| == |done + (todo[..k] + rendered)|
  {
    assert out[..|done| + k] == done + todo[..k];
    assert out[|done| + k + 1..] == todo[k + 1..];
  }

  lemma Assoc(a: string, b: string, c: string)
    ensures (a + b) + c == a + (b + c)
  {
  }

  lemma FillStep(t: string, parameters: seq<Param>, i: nat, k: nat, quote: string -> string)
    requires i < |parameters| && IndexOf(t, '?') == Some(k)
    ensures Fill(t, parameters[i..], quote) == t[..k] + Render(parameters[i], quote) + Fill(t[k + 1..], parameters[i + 1..], quote)
  {
    var ps := parameters[i..];
    assert ps[0] == parameters[i] && ps[1..] == parameters[i + 1..];
    FillAtMark(t, ps, k, quote);
  }

  lemma FillAtMark(t: string, ps: seq<Param>, k: nat, quote: string -> string)
    requires ps != [] && IndexOf(t, '?') == Some(k)
    ensures Fill(t, ps, quote) == t[..k] + Render(ps[0], quote) + Fill(t[k + 1..], ps[1..], quote)
  {
  }

  /** No mark is left over once as many parameters as marks, none of them rendered with a mark, are filled in. */
  lemma {:induction false} FillLeavesNoMark(s: string, ps: seq<Param>, quote: string -> string)
    requires Count(s, '?') == |ps|
    requires forall i :: 0 <= i < |ps| ==> '?' !in Render(ps[i], quote)
    ensures '?' !in Fill(s, ps, quote)
    decreases |ps|
  {
    if ps != [] {
      var k := IndexOf(s, '?').value;
      MarkSplit(s, k);
      assert forall i :: 0 <= i < |ps[1..]| ==> ps[1..][i] == ps[i + 1];
      FillLeavesNoMark(s[k + 1..], ps[1..], quote);
      var rest := Fill(s[k + 1..], ps[1..], quote);
      CountConcat(s[..k] + Render(ps[0], quote), rest, '?');
      CountConcat(s[..k], Render(ps[0], quote), '?');
    }
  }

  function Renders(ps: seq<Param>, quote: string -> string): (r: seq<string>)
    ensures |r| == |ps|
    ensures forall i :: 0 <= i < |ps| ==> r[i] == Render(ps[i], quote)
  {
    seq(|ps|, i requires 0 <= i < |ps| => Render(ps[i], quote))
  }

  /** The pieces of text with the replacements between them. */
  function Interleave(pieces: seq<string>, between: seq<string>): string
    requires |pieces| == |between| + 1
  {
    if between == [] then pieces[0] else pieces[0] + between[0] + Interleave(pieces[1..], between[1..])
  }

  /**
   * Reference reading of the substitution: a statement made of mark-free
   * pieces joined by '?' becomes those pieces with the renderings in between.
   */
  lemma {:induction false} FillJoinedPieces(pieces: seq<string>, ps: seq<Param>, quote: string -> string)
    requires |pieces| == |ps| + 1
    requires forall i :: 0 <= i < |pieces| ==> '?' !in pieces[i]
    ensures Fill(Join("?", pieces), ps, quote) == Interleave(pieces, Renders(ps, quote))
    decreases |ps|
  {
    if ps != [] {
      var s := Join("?", pieces);
      var tail := Join("?", pieces[1..]);
      assert s == pieces[0] + "?" + tail;
      PieceMark(pieces[0], tail);
      assert s[..|pieces[0]|] == pieces[0];
      assert s[|pieces[0]| + 1..] == tail;
      assert Renders(ps, quote)[1..] == Renders(ps[1..], quote);
      assert forall i :: 0 <= i < |pieces[1..]| ==> pieces[1..][i] == pieces[i + 1];
      FillJoinedPieces(pieces[1..], ps[1..], quote);
    }
  }

  lemma PieceMark(a: string, b: string)
    requires '?' !in a
    ensures IndexOf(a + "?" + b, '?') == Some(|a|)
  {
    var s := a + "?" + b;
    assert s[|a|] == '?';
    assert forall j :: 0 <= j < |a| ==> s[j] == a[j];
  }
}
