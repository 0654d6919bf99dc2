/**
 * The pieces of Go's `strings`, `unicode` and `fmt` packages the core relies
 * on, over Dafny strings (sequences of Unicode scalar values).
 *
 * `ToLower` maps only the ASCII letters; `IsSpace` is exactly the set of
 * characters Go's `unicode.IsSpace` accepts.
 */
module Strings {

  /** Go's `unicode.IsSpace`: tab to carriage return, space, U+0085, U+00A0 and Unicode's White_Space characters. */
  predicate IsSpace(c: char) {
    var n := c as int;
    (9 <= n <= 13) || n == 32 || n == 0x85 || n == 0xA0 || n == 0x1680
    || (0x2000 <= n <= 0x200A) || n == 0x2028 || n == 0x2029 || n == 0x202F
    || n == 0x205F || n == 0x3000
  }

  function LowerChar(c: char): char {
    if 'A' <= c <= 'Z' then (c as int + 32) as char else c
  }

  /** `strings.ToLower`, restricted to ASCII letters. */
  function ToLower(s: string): string {
    seq(|s|, i requires 0 <= i < |s| => LowerChar(s[i]))
  }

  function TrimLeft(s: string): string {
    if |s| > 0 && IsSpace(s[0]) then TrimLeft(s[1..]) else s
  }

  function TrimRight(s: string): string {
    if |s| > 0 && IsSpace(s[|s| - 1]) then TrimRight(s[..|s| - 1]) else s
  }

  /** `strings.TrimSpace`: drops leading and trailing white space. */
  function TrimSpace(s: string): string {
    TrimRight(TrimLeft(s))
  }

  predicate IsTrimmed(s: string) {
    s == [] || (!IsSpace(s[0]) && !IsSpace(s[|s| - 1]))
  }

  /** `strings.HasPrefix`. */
  predicate HasPrefix(s: string, prefix: string) {
    |prefix| <= |s| && s[..|prefix|] == prefix
  }

  /** `strings.Contains`: `sub` occurs somewhere in `s`. */
  predicate Contains(s: string, sub: string)
    decreases |s|
  {
    HasPrefix(s, sub) || (|s| > 0 && Contains(s[1..], sub))
  }

  /** `strings.Split(s, string(sep))`: the pieces between separators, at least one. */
  function Split(s: string, sep: char): (parts: seq<string>)
    ensures |parts| >= 1
  {
    if s == [] then [""]
    else
      var rest := Split(s[1..], sep);
      if s[0] == sep then [""] + rest else [[s[0]] + rest[0]] + rest[1..]
  }

  /** `strings.Join`. */
  function Join(parts: seq<string>, sep: string): string {
    if |parts| == 0 then ""
    else if |parts| == 1 then parts[0]
    else parts[0] + sep + Join(parts[1..], sep)
  }

  lemma JoinCoversHead(parts: seq<string>, sep: string)
    requires parts != []
    ensures |Join(parts, sep)| >= |parts[0]|
  {
  }

  /** The decimal digits of `n`, as `fmt`'s `%d` prints them. */
  function NatToString(n: nat): string {
    if n < 10 then [('0' as int + n) as char]
    else NatToString(n / 10) + [('0' as int + n % 10) as char]
  }

  /** `%d` prints at least one digit and nothing but digits. */
  lemma {:induction false} NatToStringDigits(n: nat)
    ensures |NatToString(n)| >= 1
    ensures forall k :: 0 <= k < |NatToString(n)| ==> '0' <= NatToString(n)[k] <= '9'
  {
    if n >= 10 {
      NatToStringDigits(n / 10);
    }
  }

  /** Byte-wise (code point) order of strings, SQLite's BINARY collation. */
  predicate StrLe(a: string, b: string)
    decreases |a|
  {
    if |a| == 0 then true
    else if |b| == 0 then false
    else if a[0] < b[0] then true
    else if a[0] == b[0] then StrLe(a[1..], b[1..])
    else false
  }

  // ---- Trimming and lower-casing ----

  lemma {:induction false} TrimLeftNoLeadingSpace(s: string)
    ensures TrimLeft(s) == [] || !IsSpace(TrimLeft(s)[0])
    ensures |TrimLeft(s)| <= |s| && TrimLeft(s) == s[|s| - |TrimLeft(s)|..]
  {
    if |s| > 0 && IsSpace(s[0]) {
      TrimLeftNoLeadingSpace(s[1..]);
    }
  }

  lemma {:induction false} TrimRightNoTrailingSpace(s: string)
    ensures TrimRight(s) == [] || !IsSpace(TrimRight(s)[|TrimRight(s)| - 1])
    ensures |TrimRight(s)| <= |s|
    ensures TrimRight(s) == s[..|TrimRight(s)|]
  {
    if |s| > 0 && IsSpace(s[|s| - 1]) {
      TrimRightNoTrailingSpace(s[..|s| - 1]);
    }
  }

  /** TrimRight never exposes a leading space that was not there. */
  lemma {:induction false} TrimRightKeepsHead(s: string)
    requires s == [] || !IsSpace(s[0])
    ensures TrimRight(s) == [] || !IsSpace(TrimRight(s)[0])
  {
    TrimRightNoTrailingSpace(s);
  }

  /** The result of TrimSpace starts and ends with a non-space character. */
  lemma TrimSpaceIsTrimmed(s: string)
    ensures IsTrimmed(TrimSpace(s))
  {
    TrimLeftNoLeadingSpace(s);
    TrimRightKeepsHead(TrimLeft(s));
    TrimRightNoTrailingSpace(TrimLeft(s));
  }

  /** A trimmed string is its own TrimSpace. */
  lemma TrimmedIsFixed(s: string)
    requires IsTrimmed(s)
    ensures TrimSpace(s) == s
  {
  }

  lemma TrimSpaceIdempotent(s: string)
    ensures TrimSpace(TrimSpace(s)) == TrimSpace(s)
  {
    TrimSpaceIsTrimmed(s);
    TrimmedIsFixed(TrimSpace(s));
  }

  lemma ToLowerIdempotent(s: string)
    ensures ToLower(ToLower(s)) == ToLower(s)
  {
  }

  lemma {:induction false} TrimLeftLower(s: string)
    ensures TrimLeft(ToLower(s)) == ToLower(TrimLeft(s))
  {
    if |s| > 0 {
      assert ToLower(s)[0] == LowerChar(s[0]);
      assert ToLower(s)[1..] == ToLower(s[1..]);
      if IsSpace(s[0]) {
        TrimLeftLower(s[1..]);
      }
    }
  }

  lemma {:induction false} TrimRightLower(s: string)
    ensures TrimRight(ToLower(s)) == ToLower(TrimRight(s))
  {
    if |s| > 0 {
      assert ToLower(s)[|s| - 1] == LowerChar(s[|s| - 1]);
      assert ToLower(s)[..|s| - 1] == ToLower(s[..|s| - 1]);
      if IsSpace(s[|s| - 1]) {
        TrimRightLower(s[..|s| - 1]);
      }
    }
  }

  /** Lower-casing never creates or removes white space, so it commutes with trimming. */
  lemma TrimSpaceLower(s: string)
    ensures TrimSpace(ToLower(s)) == ToLower(TrimSpace(s))
  {
    TrimLeftLower(s);
    TrimRightLower(TrimLeft(s));
  }

  // ---- Prefixes and substrings ----

  lemma PrefixIsContained(s: string, p: string)
    requires HasPrefix(s, p)
    ensures Contains(s, p)
  {
  }

  lemma EverythingContainsEmpty(s: string)
    ensures Contains(s, "")
  {
    assert HasPrefix(s, "");
  }

  /** `p` occurs in `s` starting at offset `o`. */
  predicate OccursAt(s: string, p: string, o: int) {
    0 <= o && o + |p| <= |s| && s[o..o + |p|] == p
  }

  lemma {:induction false} OccursContains(s: string, p: string, o: int)
    requires OccursAt(s, p, o)
    ensures Contains(s, p)
  {
    if o > 0 {
      assert s[1..][o - 1..o - 1 + |p|] == s[o..o + |p|];
      OccursContains(s[1..], p, o - 1);
    }
  }

  /** What follows a known head inside an occurrence occurs right after the head. */
  lemma OccursAfterHead(s: string, head: string, p: string, o: int)
    requires OccursAt(s, head + p, o)
    ensures OccursAt(s, p, o + |head|)
  {
    assert s[o..o + |head + p|][|head|..] == s[o + |head|..o + |head| + |p|];
    assert (head + p)[|head|..] == p;
  }

  /** A string in which the first character of `p` never appears early enough does not contain `p`. */
  lemma {:induction false} NoOccurrenceOfHead(s: string, p: string)
    requires p != []
    requires forall i :: 0 <= i && i + |p| <= |s| ==> s[i] != p[0]
    ensures !Contains(s, p)
  {
    if |p| <= |s| {
      assert s[..|p|][0] == s[0];
    }
    if |s| > 0 {
      forall i | 0 <= i && i + |p| <= |s| - 1
        ensures s[1..][i] != p[0]
      {
        assert s[1..][i] == s[i + 1];
      }
      NoOccurrenceOfHead(s[1..], p);
    }
  }

  /** An occurrence that starts with a non-space character survives TrimLeft. */
  lemma {:induction false} TrimLeftKeepsOccurrence(s: string, p: string, o: int)
    requires OccursAt(s, p, o) && p != [] && !IsSpace(p[0])
    ensures exists o' :: OccursAt(TrimLeft(s), p, o')
  {
    if |s| > 0 && IsSpace(s[0]) {
      assert s[o] == p[0];
      assert s[1..][o - 1..o - 1 + |p|] == s[o..o + |p|];
      TrimLeftKeepsOccurrence(s[1..], p, o - 1);
      var o' :| OccursAt(TrimLeft(s[1..]), p, o');
      assert TrimLeft(s) == TrimLeft(s[1..]);
      assert OccursAt(TrimLeft(s), p, o');
    } else {
      assert OccursAt(TrimLeft(s), p, o);
    }
  }

  /** An occurrence that ends with a non-space character survives TrimRight. */
  lemma {:induction false} TrimRightKeepsOccurrence(s: string, p: string, o: int)
    requires OccursAt(s, p, o) && p != [] && !IsSpace(p[|p| - 1])
    ensures OccursAt(TrimRight(s), p, o)
  {
    if |s| > 0 && IsSpace(s[|s| - 1]) {
      assert s[o + |p| - 1] == p[|p| - 1];
      assert s[..|s| - 1][o..o + |p|] == s[o..o + |p|];
      TrimRightKeepsOccurrence(s[..|s| - 1], p, o);
    }
  }

  /** Trimming `s` keeps every non-empty trimmed piece of it. */
  lemma TrimSpaceKeepsOccurrence(s: string, p: string, o: int)
    requires OccursAt(s, p, o) && p != [] && IsTrimmed(p)
    ensures Contains(TrimSpace(s), p)
  {
    TrimLeftKeepsOccurrence(s, p, o);
    var o' :| OccursAt(TrimLeft(s), p, o');
    TrimRightKeepsOccurrence(TrimLeft(s), p, o');
    OccursContains(TrimSpace(s), p, o');
  }

  // ---- Split and Join ----

  /** Every part occurs in the joined string. */
  lemma {:induction false} JoinOccurs(parts: seq<string>, sep: string, i: int)
    requires 0 <= i < |parts|
    ensures exists o :: OccursAt(Join(parts, sep), parts[i], o)
  {
    if |parts| == 1 {
      assert OccursAt(Join(parts, sep), parts[i], 0);
    } else if i == 0 {
      assert OccursAt(Join(parts, sep), parts[0], 0);
    } else {
      JoinOccurs(parts[1..], sep, i - 1);
      var o :| OccursAt(Join(parts[1..], sep), parts[i], o);
      var head := parts[0] + sep;
      assert Join(parts, sep) == head + Join(parts[1..], sep);
      assert (head + Join(parts[1..], sep))[|head| + o..|head| + o + |parts[i]|] == Join(parts[1..], sep)[o..o + |parts[i]|];
      assert OccursAt(Join(parts, sep), parts[i], |head| + o);
    }
  }

  /** Splitting a separator-free prefix glued to `t` extends the first piece of `t`. */
  lemma {:induction false} SplitSeparatorFree(p: string, t: string, sep: char)
    requires sep !in p
    ensures Split(p + t, sep) == [p + Split(t, sep)[0]] + Split(t, sep)[1..]
  {
    if p != [] {
      assert (p + t)[0] == p[0];
      assert (p + t)[1..] == p[1..] + t;
      SplitSeparatorFree(p[1..], t, sep);
      assert [p[0]] + (p[1..] + Split(t, sep)[0]) == p + Split(t, sep)[0];
    } else {
      assert p + t == t;
      assert p + Split(t, sep)[0] == Split(t, sep)[0];
      assert Split(t, sep) == [Split(t, sep)[0]] + Split(t, sep)[1..];
    }
  }

  /** Splitting undoes joining when no piece contains the separator. */
  lemma {:induction false} SplitJoin(parts: seq<string>, sep: char)
    requires |parts| >= 1
    requires forall p :: p in parts ==> sep !in p
    ensures Split(Join(parts, [sep]), sep) == parts
  {
    if |parts| == 1 {
      SplitSeparatorFree(parts[0], "", sep);
      assert parts[0] + "" == parts[0];
    } else {
      var rest := Join(parts[1..], [sep]);
      assert Join(parts, [sep]) == parts[0] + ([sep] + rest);
      SplitSeparatorFree(parts[0], [sep] + rest, sep);
      assert ([sep] + rest)[0] == sep && ([sep] + rest)[1..] == rest;
      assert Split([sep] + rest, sep) == [""] + Split(rest, sep);
      assert parts[0] + "" == parts[0];
      SplitJoin(parts[1..], sep);
      assert parts == [parts[0]] + parts[1..];
    }
  }

  /** Joining undoes splitting. */
  lemma {:induction false} JoinSplit(s: string, sep: char)
    ensures Join(Split(s, sep), [sep]) == s
  {
    if s != [] {
      var rest := Split(s[1..], sep);
      JoinSplit(s[1..], sep);
      if s[0] == sep {
        assert Split(s, sep) == [""] + rest;
        assert ([""] + rest)[1..] == rest;
        assert Join(Split(s, sep), [sep]) == "" + [sep] + Join(rest, [sep]);
        assert s == [s[0]] + s[1..];
      } else {
        var parts := Split(s, sep);
        assert parts == [[s[0]] + rest[0]] + rest[1..];
        if |rest| == 1 {
          assert Join(rest, [sep]) == rest[0];
          assert s == [s[0]] + s[1..];
        } else {
          assert parts[1..] == rest[1..];
          assert Join(rest, [sep]) == rest[0] + [sep] + Join(rest[1..], [sep]);
          assert s == [s[0]] + s[1..];
        }
      }
    }
  }

  /** Splitting around one separator splits both sides independently. */
  lemma {:induction false} SplitAppend(a: string, b: string, sep: char)
    ensures Split(a + [sep] + b, sep) == Split(a, sep) + Split(b, sep)
  {
    if a == [] {
      assert a + [sep] + b == [sep] + b;
      assert ([sep] + b)[1..] == b;
    } else {
      assert (a + [sep] + b)[0] == a[0];
      assert (a + [sep] + b)[1..] == a[1..] + [sep] + b;
      SplitAppend(a[1..], b, sep);
    }
  }

  // ---- String order ----

  lemma {:induction false} StrLeTotal(a: string, b: string)
    ensures StrLe(a, b) || StrLe(b, a)
  {
    if |a| > 0 && |b| > 0 && a[0] == b[0] {
      StrLeTotal(a[1..], b[1..]);
    }
  }

  lemma {:induction false} StrLeTransitive(a: string, b: string, c: string)
    requires StrLe(a, b) && StrLe(b, c)
    ensures StrLe(a, c)
  {
    if |a| > 0 && |b| > 0 && |c| > 0 && a[0] == b[0] && b[0] == c[0] {
      StrLeTransitive(a[1..], b[1..], c[1..]);
    }
  }

  lemma {:induction false} StrLeAntisymmetric(a: string, b: string)
    requires StrLe(a, b) && StrLe(b, a)
    ensures a == b
  {
    if |a| > 0 && |b| > 0 {
      StrLeAntisymmetric(a[1..], b[1..]);
      assert a == [a[0]] + a[1..] && b == [b[0]] + b[1..];
    }
  }
}
