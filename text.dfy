/**
 * The pieces of java.lang.String behaviour the planner depends on: the decimal
 * rendering of an int in a string concatenation, String.trim() and
 * String.split(",").
 */
module Text {

  // ---------------------------------------------------------------------------
  // Decimal rendering of integers
  // ---------------------------------------------------------------------------

  predicate IsDigit(c: char) { '0' <= c <= '9' }

  predicate IsDigits(s: string) { forall k :: 0 <= k < |s| ==> IsDigit(s[k]) }

  function Digit(d: nat): (c: char)
    requires d < 10
    ensures IsDigit(c) && c as int - '0' as int == d
  {
    ('0' as int + d) as char
  }

  /** The value of a string of decimal digits, most significant first. */
  function DigitsValue(s: string): nat
    requires IsDigits(s)
  {
    if s == [] then 0
    else DigitsValue(s[..|s| - 1]) * 10 + (s[|s| - 1] as int - '0' as int)
  }

  /** Decimal digits of n, most significant first. */
  function NatToString(n: nat): string
  {
    if n < 10 then [Digit(n)] else NatToString(n / 10) + [Digit(n % 10)]
  }

  /** What Java writes for an int in a string concatenation. */
  function IntToString(i: int): (s: string)
    ensures |s| >= 1 && (s[0] == '-' <==> i < 0)
    ensures forall k :: 1 <= k < |s| ==> IsDigit(s[k])
    ensures i > 0 ==> s[0] != '0'
    ensures i < 0 ==> |s| >= 2 && s[1] != '0'
  {
    var n: nat := if i < 0 then -i else i;
    NatToStringRoundTrip(n);
    assert IsDigit(NatToString(n)[0]);
    if i < 0 then "-" + NatToString(n) else NatToString(n)
  }

  /** NatToString writes digits only, at least one, and reading them back gives n. */
  lemma {:induction false} NatToStringRoundTrip(n: nat)
    ensures |NatToString(n)| >= 1 && IsDigits(NatToString(n))
    ensures DigitsValue(NatToString(n)) == n
    ensures n > 0 ==> NatToString(n)[0] != '0'
  {
    if n >= 10 {
      var s := NatToString(n / 10);
      NatToStringRoundTrip(n / 10);
      assert (s + [Digit(n % 10)])[..|s|] == s;
      assert NatToString(n)[0] == s[0];
    }
  }

  /** Distinct integers render differently, so a rendered int identifies it. */
  lemma {:induction false} IntToStringInjective(a: int, b: int)
    requires IntToString(a) == IntToString(b)
    ensures a == b
  {
    IntToStringSign(a);
    IntToStringSign(b);
    var s := IntToString(a);
    if a < 0 {
      assert b < 0;
      assert NatToString(-a) == s[1..] == NatToString(-b);
      NatToStringInjective(-a, -b);
    } else {
      assert b >= 0;
      NatToStringInjective(a, b);
    }
  }

  lemma {:induction false} NatToStringInjective(m: nat, n: nat)
    requires NatToString(m) == NatToString(n)
    ensures m == n
  {
    NatToStringRoundTrip(m);
    NatToStringRoundTrip(n);
  }

  /** A rendered int starts with a minus sign exactly when it is negative; the digits follow. */
  lemma {:induction false} IntToStringSign(i: int)
    ensures |IntToString(i)| >= 1
    ensures IntToString(i)[0] == '-' <==> i < 0
    ensures i < 0 ==> IntToString(i)[1..] == NatToString(-i)
    ensures i >= 0 ==> IntToString(i) == NatToString(i)
  {
    var n: nat := if i < 0 then -i else i;
    NatToStringRoundTrip(n);
    assert IsDigit(NatToString(n)[0]);
    if i < 0 {
      assert ("-" + NatToString(n))[1..] == NatToString(n);
    }
  }

  // ---------------------------------------------------------------------------
  // String.trim()
  // ---------------------------------------------------------------------------

  /** String.trim() removes every character whose code is at most that of the space. */
  predicate IsBlank(c: char) { c <= ' ' }

  /** s without its leading blanks. */
  function TrimStart(s: string): string
  {
    if s != [] && IsBlank(s[0]) then TrimStart(s[1..]) else s
  }

  /** s without its trailing blanks. */
  function TrimEnd(s: string): string
  {
    if s != [] && IsBlank(s[|s| - 1]) then TrimEnd(s[..|s| - 1]) else s
  }

  /** Every character of s is blank. */
  predicate AllBlank(s: string)
  {
    s == [] || (IsBlank(s[0]) && AllBlank(s[1..]))
  }

  /** A string is all blank exactly when each of its characters is. */
  lemma {:induction false} AllBlankChars(s: string)
    ensures AllBlank(s) <==> forall k :: 0 <= k < |s| ==> IsBlank(s[k])
  {
    if s != [] {
      AllBlankChars(s[1..]);
      assert forall k :: 1 <= k < |s| ==> s[k] == s[1..][k - 1];
    }
  }

  /** TrimStart removes a prefix made only of blanks, and stops at the first non-blank. */
  lemma {:induction false} TrimStartRemovesBlanks(s: string)
    ensures |TrimStart(s)| <= |s| && TrimStart(s) == s[|s| - |TrimStart(s)|..]
    ensures forall k :: 0 <= k < |s| - |TrimStart(s)| ==> IsBlank(s[k])
    ensures TrimStart(s) == [] || !IsBlank(TrimStart(s)[0])
  {
    if s != [] && IsBlank(s[0]) {
      var t := s[1..];
      TrimStartRemovesBlanks(t);
      var r := TrimStart(t);
      assert TrimStart(s) == r;
      assert t[|t| - |r|..] == s[|s| - |r|..];
      forall k | 0 <= k < |s| - |r|
        ensures IsBlank(s[k])
      {
        if k > 0 {
          assert s[k] == t[k - 1];
        }
      }
    }
  }

  /** TrimEnd removes a suffix made only of blanks, and stops at the last non-blank. */
  lemma {:induction false} TrimEndRemovesBlanks(s: string)
    ensures |TrimEnd(s)| <= |s| && TrimEnd(s) == s[..|TrimEnd(s)|]
    ensures forall k :: |TrimEnd(s)| <= k < |s| ==> IsBlank(s[k])
    ensures TrimEnd(s) == [] || !IsBlank(TrimEnd(s)[|TrimEnd(s)| - 1])
  {
    if s != [] && IsBlank(s[|s| - 1]) {
      var t := s[..|s| - 1];
      TrimEndRemovesBlanks(t);
      var r := TrimEnd(t);
      assert TrimEnd(s) == r;
      assert t[..|r|] == s[..|r|];
      forall k | |r| <= k < |s|
        ensures IsBlank(s[k])
      {
        if k < |s| - 1 {
          assert s[k] == t[k];
        }
      }
    }
  }

  /** String.trim(): s without its leading and trailing blanks. */
  function Trim(s: string): (r: string)
    ensures |r| <= |s|
    ensures exists i, j :: 0 <= i <= j <= |s| && r == s[i..j] && AllBlank(s[..i]) && AllBlank(s[j..])
    ensures r == [] || (!IsBlank(r[0]) && !IsBlank(r[|r| - 1]))
    ensures s == [] || (!IsBlank(s[0]) && !IsBlank(s[|s| - 1])) ==> r == s
  {
    TrimStartEndSlice(s);
    TrimEnd(TrimStart(s))
  }

  /** Trimming both ends keeps the slice between a leading and a trailing run of blanks. */
  lemma {:induction false} TrimStartEndSlice(s: string)
    ensures var i := |s| - |TrimStart(s)|;
            var j := i + |TrimEnd(TrimStart(s))|;
            && 0 <= i <= j <= |s| && TrimEnd(TrimStart(s)) == s[i..j]
            && AllBlank(s[..i]) && AllBlank(s[j..])
    ensures TrimEnd(TrimStart(s)) == [] || (!IsBlank(TrimEnd(TrimStart(s))[0]) && !IsBlank(TrimEnd(TrimStart(s))[|TrimEnd(TrimStart(s))| - 1]))
    ensures s == [] || (!IsBlank(s[0]) && !IsBlank(s[|s| - 1])) ==> TrimEnd(TrimStart(s)) == s
  {
    TrimStartRemovesBlanks(s);
    var t := TrimStart(s);
    TrimEndRemovesBlanks(t);
    var i := |s| - |t|;
    var j := i + |TrimEnd(t)|;
    assert TrimEnd(t) == s[i..j];
    var lead, trail := s[..i], s[j..];
    assert forall k :: 0 <= k < |lead| ==> IsBlank(lead[k]);
    assert forall k :: 0 <= k < |trail| ==> trail[k] == t[|TrimEnd(t)| + k];
    AllBlankChars(lead);
    AllBlankChars(trail);
  }


  // ---------------------------------------------------------------------------
  // String.split(",")
  // ---------------------------------------------------------------------------

  /** Every field of s between separators, empty ones included: n separators give n + 1 fields. */
  function SplitAll(s: string, sep: char): (parts: seq<string>)
    ensures |parts| >= 1
  {
    if s == [] then [[]]
    else
      var rest := SplitAll(s[1..], sep);
      if s[0] == sep then [[]] + rest
      else [[s[0]] + rest[0]] + rest[1..]
  }

  /** No field of a split holds the separator. */
  lemma {:induction false} SplitAllFields(s: string, sep: char)
    ensures forall p :: p in SplitAll(s, sep) ==> sep !in p
  {
    if s != [] {
      SplitAllFields(s[1..], sep);
      var rest := SplitAll(s[1..], sep);
      if s[0] != sep {
        assert rest == [rest[0]] + rest[1..];
        assert sep !in [s[0]] + rest[0];
      }
    }
  }

  /** The fields joined back together with the separator between consecutive ones. */
  function Join(parts: seq<string>, sep: char): string
    requires |parts| >= 1
  {
    if |parts| == 1 then parts[0] else parts[0] + [sep] + Join(parts[1..], sep)
  }

  lemma {:induction false} JoinSplitAll(s: string, sep: char)
    ensures Join(SplitAll(s, sep), sep) == s
  {
    if s != [] {
      var rest := SplitAll(s[1..], sep);
      JoinSplitAll(s[1..], sep);
      if s[0] == sep {
        assert ([[]] + rest)[1..] == rest;
      } else {
        var parts := SplitAll(s, sep);
        if |rest| == 1 {
          assert parts == [[s[0]] + rest[0]];
        } else {
          assert parts[1..] == rest[1..];
          assert Join(rest, sep) == rest[0] + [sep] + Join(rest[1..], sep);
          assert Join(parts, sep) == [s[0]] + rest[0] + [sep] + Join(rest[1..], sep);
        }
      }
    }
  }

  /** Splitting a + t, where a holds no separator, extends t's first field by a. */
  lemma {:induction false} SplitAllPrefix(a: string, t: string, sep: char)
    requires sep !in a
    ensures SplitAll(a + t, sep) == [a + SplitAll(t, sep)[0]] + SplitAll(t, sep)[1..]
  {
    var tail := SplitAll(t, sep);
    if a != [] {
      assert (a + t)[0] == a[0] && (a + t)[1..] == a[1..] + t;
      SplitAllPrefix(a[1..], t, sep);
      var rest := SplitAll(a[1..] + t, sep);
      assert rest[0] == a[1..] + tail[0] && rest[1..] == tail[1..];
      assert [a[0]] + rest[0] == a + tail[0];
    } else {
      assert a + t == t && a + tail[0] == tail[0];
      assert tail == [tail[0]] + tail[1..];
    }
  }

  lemma {:induction false} SplitAllJoin(parts: seq<string>, sep: char)
    requires |parts| >= 1
    requires forall p :: p in parts ==> sep !in p
    ensures SplitAll(Join(parts, sep), sep) == parts
  {
    var a := parts[0];
    if |parts| == 1 {
      SplitAllPrefix(a, [], sep);
      assert a + [] == a;
      assert SplitAll([], sep) == [[]];
    } else {
      var u := Join(parts[1..], sep);
      SplitAllJoin(parts[1..], sep);
      assert Join(parts, sep) == a + ([sep] + u);
      SplitAllPrefix(a, [sep] + u, sep);
      assert ([sep] + u)[0] == sep && ([sep] + u)[1..] == u;
      var split := SplitAll([sep] + u, sep);
      assert split == [[]] + parts[1..];
      assert split[0] == [] && split[1..] == parts[1..] && a + split[0] == a;
      assert parts == [a] + parts[1..];
    }
  }

  /** Drops the empty fields at the end, as String.split does. */
  function DropTrailingEmpty(parts: seq<string>): seq<string>
  {
    if parts != [] && parts[|parts| - 1] == [] then DropTrailingEmpty(parts[..|parts| - 1]) else parts
  }

  /** What is dropped is a run of empty fields at the end, and what is kept does not end in one. */
  lemma {:induction false} DropTrailingEmptyPrefix(parts: seq<string>)
    ensures |DropTrailingEmpty(parts)| <= |parts|
    ensures DropTrailingEmpty(parts) == parts[..|DropTrailingEmpty(parts)|]
    ensures forall k :: |DropTrailingEmpty(parts)| <= k < |parts| ==> parts[k] == []
    ensures DropTrailingEmpty(parts) == [] || DropTrailingEmpty(parts)[|DropTrailingEmpty(parts)| - 1] != []
  {
    if parts != [] && parts[|parts| - 1] == [] {
      DropTrailingEmptyPrefix(parts[..|parts| - 1]);
    }
  }

  /**
   * String.split with a one-character separator: a string without the separator
   * is its own single field; otherwise the fields, without the empty ones at the end.
   */
  function JavaSplit(s: string, sep: char): (parts: seq<string>)
    ensures sep !in s ==> parts == [s]
    ensures sep in s ==> |parts| <= |SplitAll(s, sep)| && parts == SplitAll(s, sep)[..|parts|]
    ensures sep in s ==> forall k :: |parts| <= k < |SplitAll(s, sep)| ==> SplitAll(s, sep)[k] == []
    ensures sep in s ==> parts == [] || parts[|parts| - 1] != []
  {
    if sep !in s then [s]
    else
      DropTrailingEmptyPrefix(SplitAll(s, sep));
      DropTrailingEmpty(SplitAll(s, sep))
  }

  /**
   * Splitting separator-free fields joined by the separator gives the fields back,
   * however many empty fields follow the last non-empty one.
   */
  lemma JavaSplitTrailingEmpty(fields: seq<string>, trailing: nat, sep: char)
    requires fields != [] && fields[|fields| - 1] != []
    requires forall p :: p in fields ==> sep !in p
    ensures JavaSplit(Join(fields + seq(trailing, _ => ""), sep), sep) == fields
  {
    var all := fields + seq(trailing, _ => "");
    var line := Join(all, sep);
    assert forall p :: p in all ==> sep !in p;
    if |all| == 1 {
      assert all == fields && line == fields[0];
    } else {
      assert line == all[0] + [sep] + Join(all[1..], sep);
      assert line[|all[0]|] == sep;
      SplitAllJoin(all, sep);
      DropTrailingEmptyPrefix(all);
      var kept := DropTrailingEmpty(all);
      assert all[|fields| - 1] != [];
      assert |kept| == |fields|;
    }
  }
}
