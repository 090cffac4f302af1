/** Values and string operations of the JavaScript runtime that the portal's
    TypeScript relies on: optional values (`undefined`/`null`), truthiness of
    form fields, `String.prototype.length` and `String.prototype.trim`.

    Dafny's `char` is a Unicode scalar value, so a JavaScript string is a
    `seq<char>` here; where JavaScript counts UTF-16 code units instead of
    characters, that is written out (`JsLength`). */
module Common {

  /** `undefined` / `null` versus a present value. */
  datatype Option<T> = None | Some(value: T) {
    function GetOr(default: T): T {
      match this
      case Some(v) => v
      case None => default
    }
  }

  /** Result of a server action: `{ success, message }`. */
  datatype ActionResult = ActionResult(success: bool, message: string)

  /** A form field read with `formData.get(...)` is truthy when present and
      not the empty string: a JavaScript string is truthy exactly when its
      length is not zero. */
  predicate Truthy(v: Option<string>): (b: bool)
    ensures b <==> v.Some? && JsLength(v.value) > 0
  {
    v.Some? && v.value != ""
  }

  /** Number of UTF-16 code units of one character. */
  function CodeUnits(c: char): (n: nat)
    ensures n == 1 || n == 2
    ensures n == 2 <==> c as int >= 0x1_0000
  {
    if c as int >= 0x1_0000 then 2 else 1
  }

  /** `s.length` in JavaScript: the number of UTF-16 code units. */
  function JsLength(s: string): (n: nat)
    ensures |s| <= n <= 2 * |s|
    ensures n == |s| <==> forall i :: 0 <= i < |s| ==> s[i] as int < 0x1_0000
  {
    if s == [] then 0 else CodeUnits(s[0]) + JsLength(s[1..])
  }

  /** ECMAScript WhiteSpace and LineTerminator code points, the characters
      that `String.prototype.trim` removes. */
  predicate IsJsWhitespace(c: char) {
    // WhiteSpace: TAB, VT, FF, ZWNBSP and the space separators (category Zs)
    c == '\t' || c == '\U{B}' || c == '\U{C}' || c == '\U{FEFF}' ||
    c == ' ' || c == '\U{A0}' || c == '\U{1680}' || ('\U{2000}' <= c <= '\U{200A}') ||
    c == '\U{202F}' || c == '\U{205F}' || c == '\U{3000}' ||
    // LineTerminator: LF, CR, LINE SEPARATOR, PARAGRAPH SEPARATOR
    c == '\n' || c == '\r' || c == '\U{2028}' || c == '\U{2029}'
  }

  /** `s.trimStart()`: drops the leading whitespace and nothing else. */
  function TrimStart(s: string): (r: string)
    ensures |r| <= |s| && r == s[|s| - |r|..]
    ensures forall i :: 0 <= i < |s| - |r| ==> IsJsWhitespace(s[i])
    ensures r != [] ==> !IsJsWhitespace(r[0])
  {
    if s != [] && IsJsWhitespace(s[0]) then TrimStart(s[1..]) else s
  }

  /** `s.trimEnd()`: drops the trailing whitespace and nothing else. */
  function TrimEnd(s: string): (r: string)
    ensures |r| <= |s| && r == s[..|r|]
    ensures forall i :: |r| <= i < |s| ==> IsJsWhitespace(s[i])
    ensures r != [] ==> !IsJsWhitespace(r[|r| - 1])
  {
    if s != [] && IsJsWhitespace(s[|s| - 1]) then TrimEnd(s[..|s| - 1]) else s
  }

  /** Number of whitespace characters at the start of `s`. */
  function LeadingWhitespace(s: string): (k: nat)
    ensures k <= |s|
    ensures forall i :: 0 <= i < k ==> IsJsWhitespace(s[i])
    ensures k < |s| ==> !IsJsWhitespace(s[k])
  {
    |s| - |TrimStart(s)|
  }

  /** `s.trim()`: the result is the slice of `s` that starts after the leading
      whitespace and is followed only by whitespace; it neither starts nor ends
      with whitespace. */
  function Trim(s: string): (r: string)
    ensures LeadingWhitespace(s) + |r| <= |s|
    ensures r == s[LeadingWhitespace(s)..LeadingWhitespace(s) + |r|]
    ensures forall i :: LeadingWhitespace(s) + |r| <= i < |s| ==> IsJsWhitespace(s[i])
    ensures r != [] ==> !IsJsWhitespace(r[0]) && !IsJsWhitespace(r[|r| - 1])
  {
    TrimEnd(TrimStart(s))
  }
}
