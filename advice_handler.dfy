/**
 * The global exception advice: turns validation failures into a `CommonResult`
 * with code 101 and a "field: message, field: message" text, and every other
 * throwable into code 200 with no text. The `enableValidationMsg` setting is a
 * parameter.
 */
module AdviceHandler {
  import opened Nullable
  import RespCodes
  import opened Results

  const Dot: char := '.'
  const SeparatorComma: string := ", "
  const SeparatorColon: string := ": "

  /** A binding error on one field; its default message may be null. */
  datatype FieldError = FieldError(field: string, defaultMessage: Option<string>)

  /** A violation reported by method-level validation, with its property path (`add.arg0.name`). */
  datatype ConstraintViolation = ConstraintViolation(propertyPath: string, message: string)

  /**
   * The exceptions the advice has a handler for, each with the collection its
   * handler reads (any of which the handler tolerates being null).
   */
  datatype HandledException =
    | MethodArgumentNotValid(fieldErrors: Option<seq<FieldError>>)
    | Bind(fieldErrors: Option<seq<FieldError>>)
    | ConstraintViolations(violations: Option<seq<ConstraintViolation>>)
    | OtherThrowable

  /** What a converter returns: the text (null when disabled) or the exception it throws. */
  type Conversion = Result<Option<string>>

  /**
   * The raw `CommonResult` the handlers return. They never set `data` or `rows`,
   * so the element type is immaterial: the unit type stands for it.
   */
  type Response = Envelope<()>

  /** What a handler returns: the response body, or the exception that escapes it. */
  type Answer = Result<Response>

  /** One `label: message` segment of the text, before joining. */
  datatype Entry = Entry(name: string, message: string)

  /** How a string-joining collector renders an element that may be null. */
  function Text(s: Option<string>): (t: string)
    ensures s.Some? ==> t == s.value
    ensures s.None? ==> t == "null"
  {
    match s
    case Some(v) => v
    case None => "null"
  }

  // ---------------------------------------------------------------------------
  // The reference: a separator-join with no leading or trailing separator.

  function Join(segments: seq<string>, sep: string): string
  {
    if |segments| == 0 then ""
    else if |segments| == 1 then segments[0]
    else segments[0] + sep + Join(segments[1..], sep)
  }

  function Segment(e: Entry): string
  {
    e.name + SeparatorColon + e.message
  }

  function Segments(entries: seq<Entry>): (ss: seq<string>)
    ensures |ss| == |entries| && forall i :: 0 <= i < |entries| ==> ss[i] == Segment(entries[i])
  {
    seq(|entries|, i requires 0 <= i < |entries| => Segment(entries[i]))
  }

  // ---------------------------------------------------------------------------
  // The pipeline as written: flatMap each entry to four pieces, concatenate them
  // all, then cut the last separator off with `substring`.

  /** `Collectors.joining()`: plain concatenation. */
  function Concat(pieces: seq<string>): string
  {
    if pieces == [] then "" else pieces[0] + Concat(pieces[1..])
  }

  /** The `flatMap` to `label, ": ", message, ", "`. */
  function Pieces(entries: seq<Entry>): (ps: seq<string>)
    ensures |ps| == 4 * |entries|
  {
    if entries == [] then []
    else [entries[0].name, SeparatorColon, entries[0].message, SeparatorComma] + Pieces(entries[1..])
  }

  lemma {:induction false} ConcatAppend(a: seq<string>, b: seq<string>)
    ensures Concat(a + b) == Concat(a) + Concat(b)
  {
    if a == [] {
      assert a + b == b;
    } else {
      assert (a + b)[1..] == a[1..] + b;
      ConcatAppend(a[1..], b);
    }
  }

  lemma ConcatFour(a: string, b: string, c: string, d: string)
    ensures Concat([a, b, c, d]) == a + b + c + d
  {
    assert [a, b, c, d][1..] == [b, c, d] && [b, c, d][1..] == [c, d] && [c, d][1..] == [d];
    calc {
      Concat([a, b, c, d]);
      a + Concat([b, c, d]);
      a + (b + Concat([c, d]));
      a + (b + (c + Concat([d])));
      { assert [d][1..] == []; }
      a + (b + (c + d));
    }
  }

  /** The concatenated pieces are the join of the segments followed by one separator. */
  lemma {:induction false} ConcatPiecesIsJoinThenComma(entries: seq<Entry>)
    requires |entries| > 0
    ensures Concat(Pieces(entries)) == Join(Segments(entries), SeparatorComma) + SeparatorComma
  {
    var head := [entries[0].name, SeparatorColon, entries[0].message, SeparatorComma];
    ConcatAppend(head, Pieces(entries[1..]));
    ConcatFour(entries[0].name, SeparatorColon, entries[0].message, SeparatorComma);
    assert Segments(entries)[0] == Segment(entries[0]);
    if |entries| > 1 {
      ConcatPiecesIsJoinThenComma(entries[1..]);
      assert Segments(entries)[1..] == Segments(entries[1..]);
    } else {
      assert Pieces(entries[1..]) == [];
    }
  }

  /**
   * The tail shared by both converters: join the pieces and cut off the final
   * separator, which throws when there is nothing to cut.
   */
  function JoinAndStrip(entries: seq<Entry>): (r: Result<string>)
    ensures |entries| > 0 ==> r == Ok(Join(Segments(entries), SeparatorComma))
    ensures |entries| == 0 ==> r == Thrown(StringIndexOutOfBounds(0, -2, 0))
  {
    var msg := Concat(Pieces(entries));
    if |entries| > 0 then
      ConcatPiecesIsJoinThenComma(entries);
      Substring(msg, 0, |msg| - |SeparatorComma|)
    else
      Substring(msg, 0, |msg| - |SeparatorComma|)
  }

  // ---------------------------------------------------------------------------
  // The two converters.

  function FieldEntries(errors: seq<FieldError>): (entries: seq<Entry>)
    ensures |entries| == |errors|
    ensures forall i :: 0 <= i < |errors| ==>
              entries[i] == Entry(errors[i].field, Text(errors[i].defaultMessage))
  {
    seq(|errors|, i requires 0 <= i < |errors| => Entry(errors[i].field, Text(errors[i].defaultMessage)))
  }

  /**
   * `convertFiledErrors`: null when the setting is off or the list is null;
   * otherwise the `", "`-join of `field: message` in list order; an empty list
   * makes the final `substring(0, -2)` throw.
   */
  function ConvertFieldErrors(enable: bool, errors: Option<seq<FieldError>>): (r: Conversion)
    ensures !enable || errors.None? ==> r == Ok(None)
    ensures enable && errors.Some? && |errors.value| > 0 ==>
              r == Ok(Some(Join(Segments(FieldEntries(errors.value)), SeparatorComma)))
    ensures enable && errors == Some([]) ==> r == Thrown(StringIndexOutOfBounds(0, -2, 0))
  {
    match errors
    case None => Ok(None)
    case Some(es) =>
      if !enable then Ok(None)
      else
        match JoinAndStrip(FieldEntries(es))
        case Ok(msg) => Ok(Some(msg))
        case Thrown(e) => Thrown(e)
  }

  /** `String.lastIndexOf(char)`: the last index holding `c`, or -1. */
  function LastIndexOf(s: string, c: char): (k: int)
    ensures -1 <= k < |s|
    ensures k == -1 <==> c !in s
    ensures k >= 0 ==> s[k] == c && forall j :: k < j < |s| ==> s[j] != c
  {
    if |s| == 0 then -1
    else if s[|s| - 1] == c then |s| - 1
    else
      var k := LastIndexOf(s[..|s| - 1], c);
      assert s == s[..|s| - 1] + [s[|s| - 1]];
      k
  }

  /**
   * The label of a violation: `path.substring(path.lastIndexOf(".") + 1)`, the part
   * after the last dot, or the whole path when it has no dot.
   */
  function Label(path: string): (name: string)
    ensures Dot !in name
    ensures Dot !in path ==> name == path
    ensures exists prefix :: path == prefix + name && (prefix == [] || prefix[|prefix| - 1] == Dot)
  {
    var k := LastIndexOf(path, Dot);
    var name := path[k + 1..];
    assert path == path[..k + 1] + name;
    name
  }

  function ViolationEntries(violations: seq<ConstraintViolation>): (entries: seq<Entry>)
    ensures |entries| == |violations|
    ensures forall i :: 0 <= i < |violations| ==>
              entries[i] == Entry(Label(violations[i].propertyPath), violations[i].message)
  {
    seq(|violations|, i requires 0 <= i < |violations| =>
      Entry(Label(violations[i].propertyPath), violations[i].message))
  }

  /**
   * `convertConstraintViolations`: as `ConvertFieldErrors`, with each violation's
   * label taken from the end of its property path. The sequence is the order in
   * which the exception's violation set is iterated.
   */
  function ConvertConstraintViolations(enable: bool, violations: Option<seq<ConstraintViolation>>): (r: Conversion)
    ensures !enable || violations.None? ==> r == Ok(None)
    ensures enable && violations.Some? && |violations.value| > 0 ==>
              r == Ok(Some(Join(Segments(ViolationEntries(violations.value)), SeparatorComma)))
    ensures enable && violations == Some([]) ==> r == Thrown(StringIndexOutOfBounds(0, -2, 0))
  {
    match violations
    case None => Ok(None)
    case Some(vs) =>
      if !enable then Ok(None)
      else
        match JoinAndStrip(ViolationEntries(vs))
        case Ok(msg) => Ok(Some(msg))
        case Thrown(e) => Thrown(e)
  }

  // ---------------------------------------------------------------------------
  // The four handlers.

  /** Wraps a converted text in `respWith(PARAM_INVALID, text)`; a throw passes through. */
  function ParamInvalid(converted: Conversion): (r: Answer)
    ensures converted.Ok? ==> r == Ok(RespWithMsg(Some(101), converted.value))
    ensures converted.Thrown? ==> r == Thrown(converted.error)
  {
    match converted
    case Ok(msg) => Ok(RespWithMsg(Some(RespCodes.DeclaredCode(RespCodes.ParamInvalid)), msg))
    case Thrown(e) => Thrown(e)
  }

  /** `handleMethodArgumentNotValidException`: code 101 with the converted field errors. */
  function HandleMethodArgumentNotValid(enable: bool, fieldErrors: Option<seq<FieldError>>): (r: Answer)
    ensures ConvertFieldErrors(enable, fieldErrors).Ok? ==>
              r == Ok(RespWithMsg(Some(101), ConvertFieldErrors(enable, fieldErrors).value))
    ensures ConvertFieldErrors(enable, fieldErrors).Thrown? ==> r == Thrown(ConvertFieldErrors(enable, fieldErrors).error)
  {
    ParamInvalid(ConvertFieldErrors(enable, fieldErrors))
  }

  /** `handleBindException`: code 101 with the converted field errors. */
  function HandleBind(enable: bool, fieldErrors: Option<seq<FieldError>>): (r: Answer)
    ensures ConvertFieldErrors(enable, fieldErrors).Ok? ==>
              r == Ok(RespWithMsg(Some(101), ConvertFieldErrors(enable, fieldErrors).value))
    ensures ConvertFieldErrors(enable, fieldErrors).Thrown? ==> r == Thrown(ConvertFieldErrors(enable, fieldErrors).error)
  {
    ParamInvalid(ConvertFieldErrors(enable, fieldErrors))
  }

  /** `handleConstraintViolationException`: code 101 with the converted violations. */
  function HandleConstraintViolation(enable: bool, violations: Option<seq<ConstraintViolation>>): (r: Answer)
    ensures ConvertConstraintViolations(enable, violations).Ok? ==>
              r == Ok(RespWithMsg(Some(101), ConvertConstraintViolations(enable, violations).value))
    ensures ConvertConstraintViolations(enable, violations).Thrown? ==> r == Thrown(ConvertConstraintViolations(enable, violations).error)
  {
    ParamInvalid(ConvertConstraintViolations(enable, violations))
  }

  /** `handleException`, the catch-all: `failed()`, code 200, the failure kept out of the response. */
  function HandleException(): (r: Response)
    ensures r.respCode == Some(200) && r.msg.None? && r.data.None? && r.rows.None? && r.total.None?
  {
    Failed()
  }

  /** Routes an exception to its handler. */
  function Advise(enable: bool, ex: HandledException): (r: Answer)
    ensures ex.OtherThrowable? ==> r == Ok(Failed())
    ensures !ex.OtherThrowable? && r.Ok? ==>
              r.value.respCode == Some(101) && r.value.data.None? && r.value.rows.None? && r.value.total.None?
    ensures !ex.OtherThrowable? && !enable ==> r == Ok(RespWithMsg(Some(101), None))
    ensures (ex.MethodArgumentNotValid? || ex.Bind?) && enable ==>
              match ex.fieldErrors
              case None => r == Ok(RespWithMsg(Some(101), None))
              case Some(es) =>
                if |es| > 0 then r == Ok(RespWithMsg(Some(101), Some(Join(Segments(FieldEntries(es)), SeparatorComma))))
                else r == Thrown(StringIndexOutOfBounds(0, -2, 0))
    ensures ex.ConstraintViolations? && enable ==>
              match ex.violations
              case None => r == Ok(RespWithMsg(Some(101), None))
              case Some(vs) =>
                if |vs| > 0 then r == Ok(RespWithMsg(Some(101), Some(Join(Segments(ViolationEntries(vs)), SeparatorComma))))
                else r == Thrown(StringIndexOutOfBounds(0, -2, 0))
  {
    match ex
    case MethodArgumentNotValid(errors) => HandleMethodArgumentNotValid(enable, errors)
    case Bind(errors) => HandleBind(enable, errors)
    case ConstraintViolations(violations) => HandleConstraintViolation(enable, violations)
    case OtherThrowable => Ok(HandleException())
  }

  // ---------------------------------------------------------------------------
  // Consequences for callers.

  /** A single field error gives exactly `field: message`, with no separator. */
  lemma SingleFieldError(e: FieldError)
    ensures ConvertFieldErrors(true, Some([e])) == Ok(Some(e.field + SeparatorColon + Text(e.defaultMessage)))
  {
    assert FieldEntries([e])[0] == Entry(e.field, Text(e.defaultMessage));
  }

  /** Two field errors appear in list order, separated by one `", "`. */
  lemma TwoFieldErrors(a: FieldError, b: FieldError)
    ensures ConvertFieldErrors(true, Some([a, b])) ==
            Ok(Some(a.field + SeparatorColon + Text(a.defaultMessage) + SeparatorComma +
                    b.field + SeparatorColon + Text(b.defaultMessage)))
  {
    var ss := Segments(FieldEntries([a, b]));
    assert ss[0] == a.field + SeparatorColon + Text(a.defaultMessage);
    assert ss[1] == b.field + SeparatorColon + Text(b.defaultMessage);
    assert ss[1..] == [ss[1]];
    assert Join(ss, SeparatorComma) == ss[0] + SeparatorComma + ss[1];
    assert ConvertFieldErrors(true, Some([a, b])) == Ok(Some(Join(ss, SeparatorComma)));
    assert ss[0] + SeparatorComma + ss[1] == a.field + SeparatorColon + Text(a.defaultMessage) + SeparatorComma +
                    b.field + SeparatorColon + Text(b.defaultMessage);
  }

  /** A single violation gives exactly `name: message`, the name being the last path segment. */
  lemma SingleViolation(v: ConstraintViolation)
    ensures ConvertConstraintViolations(true, Some([v])) == Ok(Some(Label(v.propertyPath) + SeparatorColon + v.message))
  {
    assert ViolationEntries([v])[0] == Entry(Label(v.propertyPath), v.message);
  }

  /**
   * With the setting on, a validation exception whose list is present but empty
   * makes the handler itself throw from `substring(0, -2)` instead of answering.
   */
  lemma EmptyListEscapesTheAdvice(ex: HandledException)
    requires ex == MethodArgumentNotValid(Some([])) || ex == Bind(Some([])) || ex == ConstraintViolations(Some([]))
    ensures Advise(true, ex) == Thrown(StringIndexOutOfBounds(0, -2, 0))
  {
  }

  /** Every answer the advice gives carries code 101 for the three validation exceptions and 200 otherwise. */
  lemma ResponseCodes(enable: bool, ex: HandledException)
    ensures Advise(enable, ex).Ok? ==>
              Advise(enable, ex).value.respCode == Some(if ex.OtherThrowable? then 200 else 101)
    ensures Advise(enable, ex).Ok? && (ex.OtherThrowable? || !enable) ==> Advise(enable, ex).value.msg.None?
  {
  }
}
