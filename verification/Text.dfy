/** Byte strings as Go compares and joins them: one `char` stands for one byte. */
module Text {

  const NUL: char := '\0'

  /** Go's `<` on strings. */
  predicate Less(a: string, b: string)
  {
    b != [] && (a == [] || a[0] < b[0] || (a[0] == b[0] && Less(a[1..], b[1..])))
  }

  lemma {:induction false} LessIrreflexive(a: string)
    ensures !Less(a, a)
  {
    if a != [] {
      LessIrreflexive(a[1..]);
    }
  }

  /** The first byte in which two strings differ decides, and a proper prefix is less. */
  lemma {:induction false} LessMeans(a: string, b: string, n: nat)
    requires n <= |a| && n <= |b| && a[..n] == b[..n]
    requires n < |a| && n < |b| ==> a[n] != b[n]
    ensures n < |a| && n < |b| ==> (Less(a, b) <==> a[n] < b[n])
    ensures n == |a| || n == |b| ==> (Less(a, b) <==> |a| < |b|)
  {
    if n > 0 {
      assert a[0] == a[..n][0] == b[..n][0] == b[0];
      assert a[1..][..n - 1] == a[..n][1..] == b[..n][1..] == b[1..][..n - 1];
      LessMeans(a[1..], b[1..], n - 1);
    }
  }

  lemma {:induction false} LessTransitive(a: string, b: string, c: string)
    requires Less(a, b) && Less(b, c)
    ensures Less(a, c)
  {
    if a != [] && a[0] == b[0] == c[0] {
      LessTransitive(a[1..], b[1..], c[1..]);
    }
  }

  lemma {:induction false} LessTotal(a: string, b: string)
    ensures a == b || Less(a, b) || Less(b, a)
  {
    if a != [] && b != [] && a[0] == b[0] {
      LessTotal(a[1..], b[1..]);
      assert a == [a[0]] + a[1..] && b == [b[0]] + b[1..];
    }
  }

  /** The multi-field comparison the sort callbacks spell out: the first differing field decides. */
  predicate RowLess(a: seq<string>, b: seq<string>)
  {
    b != [] && (a == [] || Less(a[0], b[0]) || (a[0] == b[0] && RowLess(a[1..], b[1..])))
  }

  lemma {:induction false} RowLessIrreflexive(a: seq<string>)
    ensures !RowLess(a, a)
  {
    if a != [] {
      LessIrreflexive(a[0]);
      RowLessIrreflexive(a[1..]);
    }
  }

  lemma {:induction false} RowLessTransitive(a: seq<string>, b: seq<string>, c: seq<string>)
    requires RowLess(a, b) && RowLess(b, c)
    ensures RowLess(a, c)
  {
    if a != [] {
      if Less(a[0], b[0]) && Less(b[0], c[0]) {
        LessTransitive(a[0], b[0], c[0]);
      } else if a[0] == b[0] == c[0] {
        if RowLess(a[1..], b[1..]) && RowLess(b[1..], c[1..]) {
          RowLessTransitive(a[1..], b[1..], c[1..]);
        }
      }
    }
  }

  lemma {:induction false} RowLessTotal(a: seq<string>, b: seq<string>)
    ensures a == b || RowLess(a, b) || RowLess(b, a)
  {
    if a != [] && b != [] {
      LessTotal(a[0], b[0]);
      if a[0] == b[0] {
        RowLessTotal(a[1..], b[1..]);
        assert a == [a[0]] + a[1..] && b == [b[0]] + b[1..];
      }
    }
  }

  /** The map keys of the harness: the fields joined by NUL bytes. */
  function Join(parts: seq<string>): string
  {
    if parts == [] then ""
    else if |parts| == 1 then parts[0]
    else parts[0] + [NUL] + Join(parts[1..])
  }

  predicate NulFree(s: string)
  {
    NUL !in s
  }

  /** A joined key determines its fields as long as no field holds a NUL byte. */
  lemma {:induction false} JoinInjective(a: seq<string>, b: seq<string>)
    requires |a| == |b| && Join(a) == Join(b)
    requires forall i :: 0 <= i < |a| ==> NulFree(a[i]) && NulFree(b[i])
    ensures a == b
  {
    if |a| > 1 {
      var s := Join(a);
      assert s[|a[0]|] == NUL && s[|b[0]|] == NUL;
      assert forall i :: 0 <= i < |a[0]| ==> s[i] == a[0][i] != NUL;
      assert forall i :: 0 <= i < |b[0]| ==> s[i] == b[0][i] != NUL;
      assert a[0] == s[..|a[0]|] == b[0];
      assert Join(a[1..]) == s[|a[0]| + 1..] == Join(b[1..]);
      JoinInjective(a[1..], b[1..]);
      assert a == [a[0]] + a[1..] && b == [b[0]] + b[1..];
    }
  }

  predicate HasPrefix(s: string, prefix: string)
  {
    prefix <= s
  }

  /** What `strings.TrimSpace` strips, within ASCII. */
  predicate Blank(c: char)
  {
    c == ' ' || ('\t' <= c && c <= '\r')
  }

  function TrimLeft(s: string): string
  {
    if s != [] && Blank(s[0]) then TrimLeft(s[1..]) else s
  }

  function TrimRight(s: string): string
  {
    if s != [] && Blank(s[|s| - 1]) then TrimRight(s[..|s| - 1]) else s
  }

  function Trim(s: string): string
  {
    TrimRight(TrimLeft(s))
  }

  predicate AllBlank(s: string)
  {
    forall i :: 0 <= i < |s| ==> s[i] in " \t\n\r" || s[i] as int in {11, 12}
  }

  lemma {:induction false} TrimLeftStrips(s: string) returns (left: string)
    ensures AllBlank(left) && s == left + TrimLeft(s)
  {
    left := "";
    if s != [] && Blank(s[0]) {
      left := TrimLeftStrips(s[1..]);
      assert s == [s[0]] + s[1..];
      left := [s[0]] + left;
    }
  }

  lemma {:induction false} TrimRightStrips(s: string) returns (right: string)
    ensures AllBlank(right) && s == TrimRight(s) + right
  {
    right := "";
    if s != [] && Blank(s[|s| - 1]) {
      right := TrimRightStrips(s[..|s| - 1]);
      assert s == s[..|s| - 1] + [s[|s| - 1]];
      right := right + [s[|s| - 1]];
    }
  }

  /** Trimming takes off blanks at both ends, and all of them. */
  lemma TrimMeans(s: string) returns (left: string, right: string)
    ensures s == left + Trim(s) + right && AllBlank(left) && AllBlank(right)
    ensures Trim(s) == "" || !AllBlank([Trim(s)[0]])
    ensures Trim(s) == "" || !AllBlank([Trim(s)[|Trim(s)| - 1]])
  {
    left := TrimLeftStrips(s);
    right := TrimRightStrips(TrimLeft(s));
    assert left + (Trim(s) + right) == left + Trim(s) + right;
    TrimEnds(s);
  }

  lemma TrimEnds(s: string)
    ensures Trim(s) != "" ==> !AllBlank([Trim(s)[0]]) && !AllBlank([Trim(s)[|Trim(s)| - 1]])
  {
    TrimLeftStops(s);
    TrimRightStops(TrimLeft(s));
    if Trim(s) != "" {
      assert Trim(s)[0] == TrimLeft(s)[0];
      BlankMeans(Trim(s)[0]);
      BlankMeans(Trim(s)[|Trim(s)| - 1]);
    }
  }

  lemma BlankMeans(c: char)
    ensures Blank(c) <==> AllBlank([c])
  {
    assert [c][0] == c;
    assert c in " \t\n\r" <==> c as int in {32, 9, 10, 13};
  }

  lemma {:induction false} TrimLeftStops(s: string)
    ensures TrimLeft(s) == "" || !Blank(TrimLeft(s)[0])
  {
    if s != [] && Blank(s[0]) {
      TrimLeftStops(s[1..]);
    }
  }

  lemma {:induction false} TrimRightStops(s: string)
    ensures TrimRight(s) <= s
    ensures TrimRight(s) == "" || !Blank(TrimRight(s)[|TrimRight(s)| - 1])
  {
    if s != [] && Blank(s[|s| - 1]) {
      TrimRightStops(s[..|s| - 1]);
    }
  }

  lemma TrimTwice(s: string)
    ensures Trim(Trim(s)) == Trim(s)
  {
    TrimLeftStops(s);
    TrimRightStops(TrimLeft(s));
  }
}
