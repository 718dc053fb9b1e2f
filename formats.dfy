/** The two formats the authentication request checks with regular
    expressions, written as the languages those expressions denote (ghost
    predicates) and as direct checkers proved to decide them. Go's regexp
    package uses RE2 syntax: `\s` is exactly tab, newline, form feed,
    carriage return and space, and `^`/`$` anchor at the ends of the text. */
module Formats {
  import opened Strings

  /** RE2's `\s`. */
  predicate IsSpace(c: char) {
    c == '\t' || c == '\n' || c == '\U{0C}' || c == '\r' || c == ' '
  }

  /** The class `[^\s@]`. */
  predicate IsEmailChar(c: char) {
    !IsSpace(c) && c != '@'
  }

  ghost predicate AllEmailChars(x: string) {
    forall k :: 0 <= k < |x| ==> IsEmailChar(x[k])
  }

  /** The language of `^[^\s@]+@[^\s@]+\.[^\s@]+$`: a local part, `@`, a
      domain, `.`, a top-level part, the three parts non-empty and free of
      whitespace and `@`. */
  ghost predicate MatchesEmailPattern(s: string) {
    exists i, j ::
      && 0 < i && i + 1 < j && j + 1 < |s|
      && s[i] == '@' && s[j] == '.'
      && AllEmailChars(s[..i]) && AllEmailChars(s[i + 1..j]) && AllEmailChars(s[j + 1..])
  }

  /** Decides the email format: the text has an `@` with something before
      it, no whitespace anywhere, no second `@`, and after the `@` a `.` with
      at least one character on each side. */
  function IsEmail(s: string): bool {
    var (local, domain) := Cut(s, '@');
    '@' in s && local != [] && NoSpace(s) && '@' !in domain && HasInnerDot(domain)
  }

  predicate NoSpace(s: string) {
    forall k | 0 <= k < |s| :: !IsSpace(s[k])
  }

  /** A `.` with at least one character on each side. */
  predicate HasInnerDot(d: string) {
    exists j | 0 < j < |d| - 1 :: d[j] == '.'
  }

  /** Every text the checker accepts is in the language of the pattern. */
  lemma IsEmailSound(s: string)
    requires IsEmail(s)
    ensures MatchesEmailPattern(s)
  {
    var (local, domain) := Cut(s, '@');
    var j' :| 0 < j' < |domain| - 1 && domain[j'] == '.';
    var i, j := |local|, |local| + 1 + j';
    assert s == local + ['@'] + domain;
    assert s[..i] == local;
    assert s[i + 1..j] == domain[..j'];
    assert s[j + 1..] == domain[j' + 1..];
    assert AllEmailChars(s[..i]) by {
      forall k | 0 <= k < i ensures IsEmailChar(s[..i][k]) { assert s[..i][k] == s[k]; }
    }
    var mid, top := s[i + 1..j], s[j + 1..];
    assert AllEmailChars(mid) by {
      forall k | 0 <= k < |mid| ensures IsEmailChar(mid[k]) {
        assert mid[k] == s[i + 1 + k] == domain[k];
      }
    }
    assert AllEmailChars(top) by {
      forall k | 0 <= k < |top| ensures IsEmailChar(top[k]) {
        assert top[k] == s[j + 1 + k] == domain[j' + 1 + k];
      }
    }
    assert s[i] == '@' && s[j] == '.';
  }

  /** Joining parts free of whitespace and `@` around a `.` keeps them so. */
  lemma JoinEmailChars(x: string, y: string)
    requires AllEmailChars(x) && AllEmailChars(y)
    ensures AllEmailChars(x + ['.'] + y)
  {
    var z := x + ['.'] + y;
    forall k | 0 <= k < |z| ensures IsEmailChar(z[k]) {
      if k < |x| { assert z[k] == x[k]; }
      else if k > |x| { assert z[k] == y[k - |x| - 1]; }
    }
  }

  lemma EmailCharsHaveNoAt(x: string)
    requires AllEmailChars(x)
    ensures '@' !in x
  {
  }

  /** A text is its parts around an `@` at `i` and a `.` at `j`. */
  lemma SplitAround(s: string, i: nat, j: nat)
    requires i < j < |s| && s[i] == '@' && s[j] == '.'
    ensures s == s[..i] + ['@'] + (s[i + 1..j] + ['.'] + s[j + 1..])
  {
    assert s[i + 1..] == s[i + 1..j] + ['.'] + s[j + 1..];
    assert s == s[..i] + ['@'] + s[i + 1..];
  }

  /** Parts free of whitespace joined by `@` hold no whitespace. */
  lemma JoinNoSpace(x: string, y: string)
    requires AllEmailChars(x) && AllEmailChars(y)
    ensures NoSpace(x + ['@'] + y)
  {
    var z := x + ['@'] + y;
    forall k | 0 <= k < |z| ensures !IsSpace(z[k]) {
      if k < |x| { assert z[k] == x[k]; }
      else if k > |x| { assert z[k] == y[k - |x| - 1]; }
    }
  }

  /** Every text in the language of the pattern is accepted. */
  lemma IsEmailComplete(s: string)
    requires MatchesEmailPattern(s)
    ensures IsEmail(s)
  {
    var i, j :| && 0 < i && i + 1 < j && j + 1 < |s|
                && s[i] == '@' && s[j] == '.'
                && AllEmailChars(s[..i]) && AllEmailChars(s[i + 1..j]) && AllEmailChars(s[j + 1..]);
    var local, mid, top := s[..i], s[i + 1..j], s[j + 1..];
    var domain := mid + ['.'] + top;
    assert s == local + ['@'] + domain by {
      SplitAround(s, i, j);
    }
    assert AllEmailChars(domain) by {
      JoinEmailChars(mid, top);
    }
    assert '@' !in local && '@' !in domain by {
      EmailCharsHaveNoAt(local);
      EmailCharsHaveNoAt(domain);
    }
    assert Cut(s, '@') == (local, domain) by {
      CutAtFirst(local, '@', domain);
    }
    assert NoSpace(s) by {
      JoinNoSpace(local, domain);
    }
    assert HasInnerDot(domain) by {
      assert domain[|mid|] == '.';
    }
  }

  /** The checker decides exactly the language of the pattern. */
  lemma IsEmailIffPattern(s: string)
    ensures IsEmail(s) <==> MatchesEmailPattern(s)
  {
    if IsEmail(s) { IsEmailSound(s); }
    if MatchesEmailPattern(s) { IsEmailComplete(s); }
  }

  /** The class `[0-9\- ]`. */
  predicate IsPhoneChar(c: char) {
    ('0' <= c <= '9') || c == '-' || c == ' '
  }

  /** `[0-9\- ]{7,20}`. */
  ghost predicate IsPhoneBody(b: string) {
    7 <= |b| <= 20 && forall k :: 0 <= k < |b| ==> IsPhoneChar(b[k])
  }

  /** The language of `^\+?[0-9\- ]{7,20}$`. */
  ghost predicate MatchesPhonePattern(s: string) {
    IsPhoneBody(s) || (s != [] && s[0] == '+' && IsPhoneBody(s[1..]))
  }

  /** Decides the phone format: strip one leading `+`, then 7 to 20
      characters, each a digit, `-` or a space. */
  function IsPhone(s: string): (r: bool)
    ensures r <==> MatchesPhonePattern(s)
  {
    var body := if s != [] && s[0] == '+' then s[1..] else s;
    7 <= |body| <= 20 && forall k | 0 <= k < |body| :: IsPhoneChar(body[k])
  }

  /** An address of the usual shape is accepted. */
  lemma ValidEmailExample()
    ensures MatchesEmailPattern("test@example.com")
  {
    var s := "test@example.com";
    assert s[..4] == "test" && s[5..12] == "example" && s[13..] == "com";
    assert AllEmailChars("test") && AllEmailChars("example") && AllEmailChars("com");
    assert s[4] == '@' && s[12] == '.';
  }

  /** Text without `@` is not an address. */
  lemma InvalidEmailExample()
    ensures !MatchesEmailPattern("invalid-email")
  {
    assert '@' !in "invalid-email";
    IsEmailIffPattern("invalid-email");
  }

  /** An international number with its `+` is accepted. */
  lemma ValidPhoneExample()
    ensures MatchesPhonePattern("+1234567890")
  {
    var body := "+1234567890"[1..];
    assert body == "1234567890";
    assert forall k | 0 <= k < |body| :: IsPhoneChar(body[k]);
    assert IsPhone("+1234567890");
  }

  /** Text starting with a letter is not a phone number. */
  lemma InvalidPhoneExample()
    ensures !MatchesPhonePattern("invalid-phone")
  {
    assert !IsPhone("invalid-phone") by {
      assert !IsPhoneChar("invalid-phone"[0]);
    }
  }
}
