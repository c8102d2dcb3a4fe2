/**
 * The `@DateFormat` constraint and its validator. Parsing is done by the platform's
 * date-time formatter, which this model does not describe: the validator is given
 * it as a relation `parses(format, text)`, true when building a formatter from
 * `format` and parsing `text` with it both return normally.
 */
module DateFormats {
  import opened Nullable

  /** The attributes of a `@DateFormat` declaration that the validator reads. */
  datatype DateFormat = DateFormat(message: string, format: string)

  /** `@DateFormat` with its defaults. */
  const DefaultDateFormat: DateFormat := DateFormat("日期格式不正确", "yyyy-MM-dd")

  /** `@DateTimeFormat`, which is `@DateFormat` with the message and format overridden. */
  const DefaultDateTimeFormat: DateFormat := DateFormat("日期时间格式不正确", "yyyy-MM-dd HH:mm:ss")

  /** Whether building a formatter for the format and parsing the text with it succeed. */
  type Parser = (string, string) -> bool

  /**
   * `Character.isWhitespace`: the space, line and paragraph separators other than
   * the no-break spaces U+00A0, U+2007 and U+202F, plus the controls U+0009-U+000D
   * and U+001C-U+001F.
   */
  predicate IsWhitespace(c: char)
  {
    ('\U{9}' <= c <= '\U{D}') || ('\U{1C}' <= c <= '\U{20}') ||
    c == '\U{1680}' || ('\U{2000}' <= c <= '\U{2006}') || ('\U{2008}' <= c <= '\U{200A}') ||
    c == '\U{2028}' || c == '\U{2029}' || c == '\U{205F}' || c == '\U{3000}'
  }

  /** The scan behind `StringUtils.hasText`: is some character not whitespace? */
  function ContainsText(s: string): (b: bool)
    ensures b <==> exists i :: 0 <= i < |s| && !IsWhitespace(s[i])
  {
    if s == [] then false
    else if !IsWhitespace(s[0]) then true
    else
      var b := ContainsText(s[1..]);
      assert b ==> exists i :: 0 <= i < |s| && !IsWhitespace(s[i]) by {
        if b {
          var i :| 0 <= i < |s[1..]| && !IsWhitespace(s[1..][i]);
          assert s[i + 1] == s[1..][i];
        }
      }
      assert (exists i :: 0 <= i < |s| && !IsWhitespace(s[i])) ==> b by {
        if exists i :: 0 <= i < |s| && !IsWhitespace(s[i]) {
          var i :| 0 <= i < |s| && !IsWhitespace(s[i]);
          assert i > 0 && s[1..][i - 1] == s[i];
        }
      }
      b
  }

  /** `StringUtils.hasText`: not null, not empty, and not whitespace only. */
  function HasText(s: Option<string>): (b: bool)
    ensures b <==> s.Some? && exists i :: 0 <= i < |s.value| && !IsWhitespace(s.value[i])
  {
    s.Some? && |s.value| > 0 && ContainsText(s.value)
  }

  class DateFormatValidator {
    /** The pattern stored by `initialize`; null until then. */
    var format: Option<string>
    /** The platform's formatter, as a relation between pattern and text. */
    const parses: Parser

    constructor (parses: Parser)
      ensures format == None && this.parses == parses
    {
      format := None;
      this.parses := parses;
    }

    /** `initialize`: remembers the declaration's format. */
    method Initialize(dateFormat: DateFormat)
      modifies this
      ensures format == Some(dateFormat.format)
      ensures forall s :: IsValid(s) <==> !HasText(s) || parses(dateFormat.format, s.value)
    {
      format := Some(dateFormat.format);
    }

    /**
     * `isValid`: null, empty and whitespace-only input is valid without parsing;
     * any other input is valid exactly when the stored format parses it. Every
     * failure, including a null format (before `initialize`) or a malformed
     * pattern, yields false: the check never throws. The validator context is
     * not consulted.
     */
    function IsValid(dateStr: Option<string>): (ok: bool)
      reads this
      ensures dateStr.None? ==> ok
      ensures dateStr.Some? && (forall i :: 0 <= i < |dateStr.value| ==> IsWhitespace(dateStr.value[i])) ==> ok
      ensures dateStr.Some? && (exists i :: 0 <= i < |dateStr.value| && !IsWhitespace(dateStr.value[i])) ==>
                (ok <==> format.Some? && parses(format.value, dateStr.value))
    {
      if !HasText(dateStr) then true
      else
        match format
        case None => false
        case Some(f) => parses(f, dateStr.value)
    }
  }

  /**
   * A frame fact: the verdict reads only the input, the stored format and the
   * formatter, so two validators that hold the same ones agree on every input.
   * `isValid`'s context argument is never consulted, which is why the model has
   * no parameter for it.
   */
  lemma SameFormatSameVerdict(v: DateFormatValidator, w: DateFormatValidator, s: Option<string>)
    requires v.format == w.format && v.parses == w.parses
    ensures v.IsValid(s) == w.IsValid(s)
  {
  }
}
