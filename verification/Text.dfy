/** Text as the Python tools test it. */
module Text {

  /** A schema field as read: the version a tool handles, or some other text. */
  datatype SchemaField = Expected | OtherSchema(text: string)

  /** Characters for which Python's str.isspace holds. */
  predicate IsSpace(c: char) {
    || '\t' <= c <= '\r' || '\U{1c}' <= c <= ' ' || c == '\U{85}' || c == '\U{a0}'
    || c == '\U{1680}' || '\U{2000}' <= c <= '\U{200a}' || c == '\U{2028}' || c == '\U{2029}'
    || c == '\U{202f}' || c == '\U{205f}' || c == '\U{3000}'
  }

  /** `bool(s.strip())`. */
  predicate NonBlank(s: string) {
    exists i :: 0 <= i < |s| && !IsSpace(s[i])
  }

  function Strip(s: string): string {
    if s == "" then ""
    else if IsSpace(s[0]) then Strip(s[1..])
    else if IsSpace(s[|s| - 1]) then Strip(s[..|s| - 1])
    else s
  }

  /** `needle in hay`. */
  predicate Contains(hay: string, needle: string) {
    StartsWith(hay, needle) || (hay != "" && Contains(hay[1..], needle))
  }

  predicate StartsWith(s: string, prefix: string) {
    |s| >= |prefix| && s[..|prefix|] == prefix
  }

  predicate Distinct<T(==)>(s: seq<T>) {
    forall i, j :: 0 <= i < j < |s| ==> s[i] != s[j]
  }

  /** A text with a visible character in it is not blank. */
  lemma {:induction false} NonBlankPart(a: string, b: string)
    requires NonBlank(a) || NonBlank(b)
    ensures NonBlank(a + b)
  {
    var s := a + b;
    if NonBlank(a) {
      var i :| 0 <= i < |a| && !IsSpace(a[i]);
      assert !IsSpace(s[i]);
    } else {
      var i :| 0 <= i < |b| && !IsSpace(b[i]);
      assert !IsSpace(s[|a| + i]);
    }
  }
}
