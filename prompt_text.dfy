/**
 * The whitespace test `text.strip() == ""` that `get_prompt` applies to its
 * template before touching the prompt sequence.
 */
module PromptText {

  /** The characters Python's `str.isspace` accepts, which `str.strip()` removes. */
  predicate IsSpace(c: char) {
    || '\t' <= c <= '\r'             // U+0009 .. U+000D
    || '\U{1C}' <= c <= ' '          // U+001C .. U+001F, U+0020
    || c == '\U{85}' || c == '\U{A0}' || c == '\U{1680}'
    || '\U{2000}' <= c <= '\U{200A}'
    || c == '\U{2028}' || c == '\U{2029}' || c == '\U{202F}'
    || c == '\U{205F}' || c == '\U{3000}'
  }

  /** `s` without its leading whitespace: the longest suffix of `s` not starting with a space. */
  function TrimStart(s: string): (r: string)
    ensures |r| <= |s| && r == s[|s| - |r|..]
    ensures forall i :: 0 <= i < |s| - |r| ==> IsSpace(s[i])
    ensures r == [] || !IsSpace(r[0])
  {
    if s != [] && IsSpace(s[0]) then TrimStart(s[1..]) else s
  }

  /** `s` without its trailing whitespace: the longest prefix of `s` not ending with a space. */
  function TrimEnd(s: string): (r: string)
    ensures |r| <= |s| && r == s[..|r|]
    ensures forall i :: |r| <= i < |s| ==> IsSpace(s[i])
    ensures r == [] || !IsSpace(r[|r| - 1])
  {
    if s != [] && IsSpace(s[|s| - 1]) then TrimEnd(s[..|s| - 1]) else s
  }

  /** Python's `s.strip()`: empty exactly when every character of `s` is whitespace. */
  function Strip(s: string): (r: string)
    ensures r == [] <==> forall i :: 0 <= i < |s| ==> IsSpace(s[i])
    ensures r != [] ==> !IsSpace(r[0]) && !IsSpace(r[|r| - 1])
  {
    var t := TrimStart(s);
    var r := TrimEnd(t);
    assert r != [] ==> r[0] == t[0];
    r
  }

  /**
   * The template is empty after `strip()`, so the node returns `""` for it:
   * every character is whitespace (see `BlankIffStripsToEmpty`).
   */
  predicate IsBlank(text: string) {
    text == [] || (IsSpace(text[0]) && IsBlank(text[1..]))
  }

  /** `IsBlank` is exactly the source's test `text.strip() == ""`. */
  lemma {:induction false} BlankIffStripsToEmpty(text: string)
    ensures IsBlank(text) <==> Strip(text) == ""
  {
    AllSpaceIffBlank(text);
  }

  lemma {:induction false} AllSpaceIffBlank(text: string)
    ensures IsBlank(text) <==> forall i :: 0 <= i < |text| ==> IsSpace(text[i])
  {
    if text != [] {
      AllSpaceIffBlank(text[1..]);
      assert forall i :: 1 <= i < |text| ==> text[i] == text[1..][i - 1];
    }
  }
}
