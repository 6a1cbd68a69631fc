/** String operations the report applies to names and column labels:
    Python's `str.title()` and `str.replace` restricted to ASCII, Python's
    lexicographic string order, and the canonical key of a two-player team. */
module Text {

  predicate IsUpper(c: char) { 'A' <= c <= 'Z' }

  predicate IsLower(c: char) { 'a' <= c <= 'z' }

  /** A cased character in the sense of `str.title()`; only ASCII letters. */
  predicate IsCased(c: char) { IsUpper(c) || IsLower(c) }

  function ToUpper(c: char): char
  {
    if IsLower(c) then (c as int - 32) as char else c
  }

  function ToLower(c: char): char
  {
    if IsUpper(c) then (c as int + 32) as char else c
  }

  /** How `str.title()` rewrites one character: lower case after a cased
      character, upper case otherwise; uncased characters are left alone. */
  function TitleChar(c: char, afterCased: bool): char
  {
    if afterCased then ToLower(c) else ToUpper(c)
  }

  lemma TitleCharKeepsCase(c: char, afterCased: bool)
    ensures IsCased(TitleChar(c, afterCased)) == IsCased(c)
    ensures TitleChar(TitleChar(c, afterCased), afterCased) == TitleChar(c, afterCased)
  {
    if IsLower(c) {
      assert (c as int - 32) as char as int == c as int - 32;
    } else if IsUpper(c) {
      assert (c as int + 32) as char as int == c as int + 32;
    }
  }

  function TitleFrom(s: string, afterCased: bool): (r: string)
    ensures |r| == |s|
  {
    if s == [] then [] else [TitleChar(s[0], afterCased)] + TitleFrom(s[1..], IsCased(s[0]))
  }

  /** Python's `str.title()` on ASCII text (generate_report.py:81, :108, :221). */
  function Title(s: string): string
  {
    TitleFrom(s, false)
  }

  lemma {:induction false} TitleFromAt(s: string, afterCased: bool, i: nat)
    requires i < |s|
    ensures TitleFrom(s, afterCased)[i] == TitleChar(s[i], if i == 0 then afterCased else IsCased(s[i - 1]))
  {
    if i > 0 {
      TitleFromAt(s[1..], IsCased(s[0]), i - 1);
    }
  }

  /** Position by position, the title-cased string capitalises exactly the
      letters that start a word (no letter just before them) and lowers the rest. */
  lemma TitleSpec(s: string)
    ensures |Title(s)| == |s|
    ensures forall i :: 0 <= i < |s| ==> Title(s)[i] == TitleChar(s[i], i > 0 && IsCased(s[i - 1]))
  {
    forall i | 0 <= i < |s|
      ensures Title(s)[i] == TitleChar(s[i], i > 0 && IsCased(s[i - 1]))
    {
      TitleFromAt(s, false, i);
    }
  }

  /** Title-casing a title-cased string changes nothing. */
  lemma TitleIdempotent(s: string)
    ensures Title(Title(s)) == Title(s)
  {
    var t := Title(s);
    TitleSpec(s);
    TitleSpec(t);
    forall i | 0 <= i < |s|
      ensures Title(t)[i] == t[i]
    {
      TitleCharKeepsCase(s[i], i > 0 && IsCased(s[i - 1]));
      if i > 0 {
        TitleCharKeepsCase(s[i - 1], i > 1 && IsCased(s[i - 2]));
      }
    }
  }

  /** Python's `s.replace(from, to)` for single characters. */
  function ReplaceChar(s: string, from: char, to: char): (r: string)
    ensures |r| == |s|
    ensures forall i :: 0 <= i < |s| ==> r[i] == (if s[i] == from then to else s[i])
  {
    if s == [] then [] else [if s[0] == from then to else s[0]] + ReplaceChar(s[1..], from, to)
  }

  /** Python's `a <= b` on strings: lexicographic by code point, a proper
      prefix sorting first. */
  predicate LexLe(a: string, b: string)
  {
    a == [] || (b != [] && (a[0] < b[0] || (a[0] == b[0] && LexLe(a[1..], b[1..]))))
  }

  lemma {:induction false} LexTotal(a: string, b: string)
    ensures LexLe(a, b) || LexLe(b, a)
  {
    if a != [] && b != [] && a[0] == b[0] {
      LexTotal(a[1..], b[1..]);
    }
  }

  lemma {:induction false} LexAntisymmetric(a: string, b: string)
    requires LexLe(a, b) && LexLe(b, a)
    ensures a == b
  {
    if a != [] {
      LexAntisymmetric(a[1..], b[1..]);
      assert a == [a[0]] + a[1..] && b == [b[0]] + b[1..];
    }
  }

  /** The team of a row: `sorted([name, partner])` joined by "/"
      (generate_report.py:180-181). */
  function TeamKey(a: string, b: string): string
  {
    if LexLe(a, b) then a + "/" + b else b + "/" + a
  }

  /** The team key does not depend on which partner's row it is computed
      from, and it lists the smaller name first. */
  lemma TeamKeySymmetric(a: string, b: string)
    ensures TeamKey(a, b) == TeamKey(b, a)
    ensures (TeamKey(a, b) == a + "/" + b && LexLe(a, b)) || (TeamKey(a, b) == b + "/" + a && LexLe(b, a))
  {
    LexTotal(a, b);
    if LexLe(a, b) && LexLe(b, a) {
      LexAntisymmetric(a, b);
    }
  }
}
