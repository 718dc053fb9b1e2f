/** Go's `strings` helpers the model needs, on `string` = `seq<char>`. */
module Strings {

  /** Go's `strings.Cut`: the text before the first `sep` and the text after
      it; `(s, "")` when `sep` does not occur. */
  function Cut(s: string, sep: char): (r: (string, string))
    ensures sep !in r.0
    ensures sep in s ==> s == r.0 + [sep] + r.1
    ensures sep !in s ==> r == (s, "")
  {
    if s == [] then ("", "")
    else if s[0] == sep then ("", s[1..])
    else
      var rest := Cut(s[1..], sep);
      assert s == [s[0]] + s[1..];
      ([s[0]] + rest.0, rest.1)
  }

  /** The part before the first separator is determined by the string. */
  lemma {:induction false} CutAtFirst(a: string, sep: char, b: string)
    requires sep !in a
    ensures Cut(a + [sep] + b, sep) == (a, b)
  {
    var s := a + [sep] + b;
    if a == [] {
      assert s[0] == sep && s[1..] == b;
    } else {
      assert s[0] == a[0] && s[1..] == a[1..] + [sep] + b;
      CutAtFirst(a[1..], sep, b);
      assert [a[0]] + a[1..] == a;
    }
  }
}
