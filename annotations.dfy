/**
 * The textual rendering of a parser annotation used by the parser's behaviour
 * fixtures: a severity-prefixed code, the span as a point or as two offsets,
 * and the annotation's arguments, joined with ", ".
 */
module Annotations {
  import opened Wrappers
  import opened Text

  /** A diagnostic: its code, its span [start, end) in the source, and its arguments (None is `null`). */
  datatype Annotation = Annotation(code: string, start: int, end: int, args: Option<seq<string>>)

  datatype Severity = Error | Warning | Hint

  /** Why a code has no name: `code[0]` on an empty code, or an unknown first letter. */
  datatype CodeError = EmptyCode | UnknownCode(code: string)

  /** The severity a code's first letter stands for. */
  function SeverityOf(c: char): Option<Severity> {
    if c == 'E' then Some(Error)
    else if c == 'W' then Some(Warning)
    else if c == 'H' then Some(Hint)
    else None
  }

  /**
   * The text put before the code. The warning and hint labels end in a
   * literal '$': the interpolated strings write `${code}`, and only the
   * braces are interpolation.
   */
  function Label(s: Severity): string {
    match s
    case Error => "ERROR "
    case Warning => "WARNING $"
    case Hint => "HINT $"
  }

  function GetCodeName(code: string): (r: Result<string, CodeError>)
    ensures code == [] ==> r == Failure(EmptyCode)
    ensures code != [] && SeverityOf(code[0]).None? ==> r == Failure(UnknownCode(code))
    ensures r.Success? <==> code != [] && SeverityOf(code[0]).Some?
    ensures r.Success? ==> r.value == Label(SeverityOf(code[0]).value) + code
  {
    if code == [] then Failure(EmptyCode)
    else match code[0]
      case 'E' => Success("ERROR " + code)
      case 'W' => Success("WARNING $" + code)
      case 'H' => Success("HINT $" + code)
      case _ => Failure(UnknownCode(code))
  }

  /** Reads the code back out of a code name: the inverse of GetCodeName. */
  function CodeOfName(name: string): Option<string> {
    if "ERROR " <= name then Some(name[6..])
    else if "WARNING $" <= name then Some(name[9..])
    else if "HINT $" <= name then Some(name[6..])
    else None
  }

  lemma CodeNameRoundTrip(code: string)
    requires GetCodeName(code).Success?
    ensures CodeOfName(GetCodeName(code).value) == Some(code)
  {
    var name := GetCodeName(code).value;
    match code[0]
    case 'E' =>
      assert name[6..] == code;
    case 'W' =>
      assert !("ERROR " <= name) by { assert name[0] == 'W'; }
      assert name[9..] == code;
    case 'H' =>
      assert !("ERROR " <= name) by { assert name[0] == 'H'; }
      assert !("WARNING $" <= name) by { assert name[0] == 'H'; }
      assert name[6..] == code;
  }

  /** Distinct codes have distinct names. */
  lemma CodeNameInjective(c1: string, c2: string)
    requires GetCodeName(c1).Success? && GetCodeName(c2).Success?
    requires GetCodeName(c1).value == GetCodeName(c2).value
    ensures c1 == c2
  {
    CodeNameRoundTrip(c1);
    CodeNameRoundTrip(c2);
  }

  /** The span parts: one point part for an empty span, otherwise two parts, both labelled "start". */
  function SpanParts(start: int, end: int): seq<string> {
    if start == end then ["pos " + IntToString(start)]
    else ["start " + IntToString(start), "start " + IntToString(end)]
  }

  /** Arguments are rendered only when there are some: not for `null`, not for an empty array. */
  predicate HasArgs(args: Option<seq<string>>) {
    args.Some? && |args.value| > 0
  }

  /** Each argument wrapped in double quotes, in order. */
  function Quoted(args: seq<string>): (r: seq<string>)
    ensures |r| == |args|
    ensures forall i :: 0 <= i < |args| ==> r[i] == "\"" + args[i] + "\""
  {
    seq(|args|, i requires 0 <= i < |args| => "\"" + args[i] + "\"")
  }

  function ArgsPart(args: seq<string>): string {
    "args " + Join(" ", Quoted(args))
  }

  /** The parts SerializeAnnotation collects, given the code's name. */
  function Parts(name: string, a: Annotation): seq<string> {
    [name] + SpanParts(a.start, a.end) + (if HasArgs(a.args) then [ArgsPart(a.args.value)] else [])
  }

  /** The rendering of an annotation whose code has the given name. */
  function Serialized(name: string, a: Annotation): string {
    Join(", ", Parts(name, a))
  }

  method SerializeAnnotation(annotation: Annotation) returns (r: Result<string, CodeError>)
    ensures r.Failure? <==> GetCodeName(annotation.code).Failure?
    ensures r.Failure? ==> r.error == GetCodeName(annotation.code).error
    ensures r.Success? ==> r.value == Serialized(GetCodeName(annotation.code).value, annotation)
  {
    var name :- GetCodeName(annotation.code);
    var parts := [name];
    var start, end := annotation.start, annotation.end;
    if start == end {
      parts := parts + ["pos " + IntToString(start)];
    } else {
      parts := parts + ["start " + IntToString(start)];
      parts := parts + ["start " + IntToString(end)];
    }
    var args := annotation.args;
    if args.Some? && |args.value| > 0 {
      var prettyArgs := Join(" ", Quoted(args.value));
      parts := parts + ["args " + prettyArgs];
    }
    assert parts == Parts(name, annotation);
    r := Success(Join(", ", parts));
  }

  /** Two to four parts: the name first, one span part for a point and two otherwise, the arguments last if any. */
  lemma PartsShape(name: string, a: Annotation)
    ensures var p := Parts(name, a);
      2 <= |p| <= 4 && p[0] == name &&
      |p| == (if a.start == a.end then 2 else 3) + (if HasArgs(a.args) then 1 else 0) &&
      (a.start == a.end ==> p[1] == "pos " + IntToString(a.start)) &&
      (a.start != a.end ==> p[1] == "start " + IntToString(a.start) && p[2] == "start " + IntToString(a.end)) &&
      (HasArgs(a.args) ==> p[|p| - 1] == "args " + Join(" ", Quoted(a.args.value)))
  {
  }

  /** The rendered span on its own. */
  function SpanText(start: int, end: int): string {
    Join(", ", SpanParts(start, end))
  }

  function ArgsSuffix(args: Option<seq<string>>): string {
    if HasArgs(args) then ", " + ArgsPart(args.value) else ""
  }

  /** Joining a name, one or more span parts and at most one trailing part. */
  lemma JoinLayout(name: string, span: seq<string>, tail: seq<string>)
    requires |span| > 0 && |tail| <= 1
    ensures Join(", ", [name] + span + tail) == name + ", " + Join(", ", span) + (if tail == [] then "" else ", " + tail[0])
  {
    assert Join(", ", [name]) == name;
    if tail != [] {
      assert Join(", ", tail) == tail[0];
      assert [name] + span + tail == [name] + (span + tail);
      JoinAppend(", ", [name], span + tail);
      JoinAppend(", ", span, tail);
    } else {
      assert [name] + span + tail == [name] + span;
      JoinAppend(", ", [name], span);
    }
  }

  /** The rendering is the name, then ", " and the span, then the arguments if any. */
  lemma SerializedLayout(name: string, a: Annotation)
    ensures Serialized(name, a) == name + ", " + SpanText(a.start, a.end) + ArgsSuffix(a.args)
  {
    var tail := if HasArgs(a.args) then [ArgsPart(a.args.value)] else [];
    JoinLayout(name, SpanParts(a.start, a.end), tail);
  }

  /** Reads a span back from its rendering: "pos n", or "start n, start m". */
  function DecodeSpan(text: string): Option<(int, int)> {
    if "pos " <= text then
      match ParseInt(text[4..])
      case Some(n) => Some((n, n))
      case None => None
    else if "start " <= text then
      var rest := text[6..];
      var k := IndexOf(rest, ',');
      if k + 8 <= |rest| && rest[k..k + 8] == ", start " then
        match (ParseInt(rest[..k]), ParseInt(rest[k + 8..]))
        case (Some(s), Some(e)) => Some((s, e))
        case _ => None
      else None
    else None
  }

  /** A wide span renders as two "start" fields, the first offset then the second. */
  lemma WideSpanText(start: int, end: int)
    requires start != end
    ensures SpanText(start, end) == "start " + IntToString(start) + ", start " + IntToString(end)
  {
    var span := SpanParts(start, end);
    assert span[1..] == ["start " + IntToString(end)];
    assert Join(", ", span) == span[0] + ", " + Join(", ", span[1..]);
    assert span[0] + ", " + span[1] == "start " + IntToString(start) + ", start " + IntToString(end);
  }

  /** "start x, start y" decodes to the numbers x and y denote, because x holds no comma. */
  lemma DecodeWide(x: string, y: string)
    requires ',' !in x
    requires ParseInt(x).Some? && ParseInt(y).Some?
    ensures DecodeSpan("start " + x + ", start " + y) == Some((ParseInt(x).value, ParseInt(y).value))
  {
    var text := "start " + x + ", start " + y;
    assert !("pos " <= text) by { assert text[0] == 's'; }
    assert "start " <= text by { assert text[..6] == "start "; }
    var rest := text[6..];
    assert rest == x + ", start " + y;
    var k := IndexOf(rest, ',');
    assert rest[|x|] == ',';
    assert k == |x|;
    assert rest[k..k + 8] == ", start ";
    assert rest[..k] == x;
    assert rest[k + 8..] == y;
  }

  /** The span rendering is lossless, even though both offsets of a wide span are labelled "start". */
  lemma SpanRoundTrip(start: int, end: int)
    ensures DecodeSpan(SpanText(start, end)) == Some((start, end))
  {
    ParseIntRoundTrip(start);
    ParseIntRoundTrip(end);
    if start == end {
      assert SpanText(start, end)[4..] == IntToString(start);
    } else {
      WideSpanText(start, end);
      var x := IntToString(start);
      assert ',' !in x by {
        forall k | 0 <= k < |x| ensures x[k] != ',' {
        }
      }
      DecodeWide(x, IntToString(end));
    }
  }

  /** Annotations with the same code and arguments render alike only when their spans are the same. */
  lemma SerializedDeterminesSpan(a: Annotation, b: Annotation)
    requires a.code == b.code && a.args == b.args
    requires GetCodeName(a.code).Success?
    ensures Serialized(GetCodeName(a.code).value, a) == Serialized(GetCodeName(b.code).value, b)
        <==> a.start == b.start && a.end == b.end
  {
    var name := GetCodeName(a.code).value;
    SerializedLayout(name, a);
    SerializedLayout(name, b);
    if Serialized(name, a) == Serialized(name, b) {
      var pre, suf := name + ", ", ArgsSuffix(a.args);
      var sa, sb := SpanText(a.start, a.end), SpanText(b.start, b.end);
      assert pre + sa + suf == pre + sb + suf;
      assert |sa| == |sb|;
      assert sa == (pre + sa + suf)[|pre|..|pre| + |sa|];
      assert sb == (pre + sb + suf)[|pre|..|pre| + |sb|];
      SpanRoundTrip(a.start, a.end);
      SpanRoundTrip(b.start, b.end);
    }
  }
}
