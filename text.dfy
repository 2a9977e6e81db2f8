/** String helpers the editor relies on, written as ECMAScript defines them:
    String.prototype.trim, split on a one-character separator, Array.prototype.join,
    and the decimal rendering of a non-negative integer (Number.prototype.toString). */
module Text {
  import opened Seqs

  /** The characters `trim` removes: ECMAScript's WhiteSpace and LineTerminator sets. */
  const Whitespace: string :=
    "\t\n\U{000B}\U{000C}\r \U{00A0}\U{1680}\U{2000}\U{2001}\U{2002}\U{2003}\U{2004}\U{2005}"
    + "\U{2006}\U{2007}\U{2008}\U{2009}\U{200A}\U{2028}\U{2029}\U{202F}\U{205F}\U{3000}\U{FEFF}"

  predicate IsSpace(c: char) {
    SpaceFrom(c, 0)
  }

  /** `c` is one of the whitespace characters from position `i` of the table on. */
  predicate SpaceFrom(c: char, i: nat)
    decreases |Whitespace| - i
  {
    i < |Whitespace| && (Whitespace[i] == c || SpaceFrom(c, i + 1))
  }

  predicate AllSpace(s: string) {
    forall i :: 0 <= i < |s| ==> IsSpace(s[i])
  }

  /** Neither end of `s` is a whitespace character. */
  predicate IsTrimmed(s: string) {
    s == [] || (!IsSpace(s[0]) && !IsSpace(s[|s| - 1]))
  }

  /** `s` without its leading whitespace. */
  function TrimStart(s: string): (r: string)
    ensures |r| <= |s|
    ensures r == [] || !IsSpace(r[0])
  {
    if s != [] && IsSpace(s[0]) then TrimStart(s[1..]) else s
  }

  /** `s` without its trailing whitespace. */
  function TrimEnd(s: string): (r: string)
    ensures |r| <= |s|
    ensures r == [] || !IsSpace(r[|r| - 1])
  {
    if s != [] && IsSpace(s[|s| - 1]) then TrimEnd(s[..|s| - 1]) else s
  }

  /** TrimStart drops a run of whitespace from the front and keeps the rest. */
  lemma {:induction false} TrimStartIsSuffix(s: string)
    ensures TrimStart(s) == s[|s| - |TrimStart(s)|..]
    ensures AllSpace(s[..|s| - |TrimStart(s)|])
  {
    if s != [] && IsSpace(s[0]) {
      TrimStartIsSuffix(s[1..]);
      var k := |s| - |TrimStart(s)|;
      assert s[1..][k - 1..] == s[k..];
      assert forall i :: 1 <= i < k ==> s[i] == s[1..][..k - 1][i - 1];
    }
  }

  /** TrimEnd drops a run of whitespace from the back and keeps the rest. */
  lemma {:induction false} TrimEndIsPrefix(s: string)
    ensures TrimEnd(s) == s[..|TrimEnd(s)|]
    ensures AllSpace(s[|TrimEnd(s)|..])
  {
    if s != [] && IsSpace(s[|s| - 1]) {
      var u := s[..|s| - 1];
      TrimEndIsPrefix(u);
      var k := |TrimEnd(s)|;
      assert u[..k] == s[..k];
      assert forall i :: k <= i < |s| - 1 ==> s[i] == u[k..][i - k];
    }
  }

  /** String.prototype.trim: `s` without its leading and trailing whitespace. */
  function Trim(s: string): (r: string)
    ensures IsTrimmed(r)
  {
    var t := TrimStart(s);
    assert t == [] || !IsSpace(TrimEnd(t)[0]) by {
      TrimEndIsPrefix(t);
      if TrimEnd(t) != [] {
        assert TrimEnd(t)[0] == t[0];
      }
    }
    TrimEnd(t)
  }

  /** Trim removes whitespace at the two ends of `s` and nothing else. */
  lemma TrimRemovesOnlyEdgeSpace(s: string)
    ensures exists a, b :: 0 <= a <= b <= |s| && Trim(s) == s[a..b] && AllSpace(s[..a]) && AllSpace(s[b..])
  {
    var t := TrimStart(s);
    TrimStartIsSuffix(s);
    TrimEndIsPrefix(t);
    var a := |s| - |t|;
    var b := a + |TrimEnd(t)|;
    assert t[..|TrimEnd(t)|] == s[a..b];
    assert t[|TrimEnd(t)|..] == s[b..];
  }

  /** Trimming a string without commas gives a string without commas. */
  lemma TrimKeepsNoComma(s: string)
    requires ',' !in s
    ensures ',' !in Trim(s)
  {
    var t := TrimStart(s);
    TrimStartIsSuffix(s);
    TrimEndIsPrefix(t);
    assert forall c :: c in t ==> c in s;
    assert forall c :: c in TrimEnd(t) ==> c in t;
  }

  /** A string that is already trimmed is left alone. */
  lemma TrimmedIsFixed(s: string)
    requires IsTrimmed(s)
    ensures Trim(s) == s
  {
    assert TrimStart(s) == s;
    assert TrimEnd(s) == s;
  }

  /** Trimming twice is trimming once. */
  lemma TrimIdempotent(s: string)
    ensures Trim(Trim(s)) == Trim(s)
  {
    TrimmedIsFixed(Trim(s));
  }

  /** A whitespace character in front of `s` makes no difference to the trimmed result. */
  lemma TrimSkipsLeadingSpace(c: char, s: string)
    requires IsSpace(c)
    ensures Trim([c] + s) == Trim(s)
  {
    ConsTail(c, s);
    assert TrimStart([c] + s) == TrimStart(s);
  }

  /** Number of occurrences of `c` in `s`. */
  function Occurrences(s: string, c: char): (n: nat)
    ensures n <= |s|
    ensures n == 0 <==> c !in s
  {
    if s == [] then 0 else (if s[0] == c then 1 else 0) + Occurrences(s[1..], c)
  }

  /** String.prototype.split(","): the pieces between commas, in order. The empty string
      splits into one empty piece, and a comma at either end gives an empty piece there. */
  function Split(s: string): (r: seq<string>)
    ensures |r| == Occurrences(s, ',') + 1
  {
    if s == [] then [""]
    else if s[0] == ',' then [""] + Split(s[1..])
    else
      var rest := Split(s[1..]);
      [[s[0]] + rest[0]] + rest[1..]
  }

  /** No piece of a split holds the separator. */
  lemma {:induction false} SplitPiecesHaveNoComma(s: string)
    ensures forall i :: 0 <= i < |Split(s)| ==> ',' !in Split(s)[i]
  {
    if s != [] {
      SplitPiecesHaveNoComma(s[1..]);
      var rest := Split(s[1..]);
      if s[0] != ',' {
        assert ',' !in [s[0]] + rest[0];
        assert forall i :: 1 <= i < |rest| ==> Split(s)[i] == rest[i];
      } else {
        assert forall i :: 1 <= i < |Split(s)| ==> Split(s)[i] == rest[i - 1];
      }
    }
  }

  /** Array.prototype.join(sep): the pieces with `sep` between neighbours; [] joins to "". */
  function Join(parts: seq<string>, sep: string): (r: string)
    ensures |parts| == 1 ==> r == parts[0]
  {
    if |parts| == 0 then ""
    else if |parts| == 1 then parts[0]
    else parts[0] + sep + Join(parts[1..], sep)
  }

  /** Joining a list of two or more pieces puts its first piece and `sep` in front of the
      rest joined. */
  lemma JoinCons(x: string, rest: seq<string>, sep: string)
    requires |rest| >= 1
    ensures Join([x] + rest, sep) == x + sep + Join(rest, sep)
  {
    ConsTail(x, rest);
  }

  /** Joining the pieces of a split with the same separator gives back the input. */
  lemma {:induction false} SplitThenJoin(s: string)
    ensures Join(Split(s), ",") == s
  {
    if s != [] {
      var tail := s[1..];
      var rest := Split(tail);
      SplitThenJoin(tail);
      HeadTail(s);
      if s[0] == ',' {
        SplitCommaCons(tail);
        JoinCons("", rest, ",");
      } else {
        SplitNonCommaCons(s[0], tail);
        if |rest| != 1 {
          HeadTail(rest);
          JoinCons(rest[0], rest[1..], ",");
          JoinCons([s[0]] + rest[0], rest[1..], ",");
        }
      }
    }
  }

  /** A string without commas splits into itself. */
  lemma {:induction false} SplitWithoutComma(s: string)
    requires ',' !in s
    ensures Split(s) == [s]
  {
    if s != [] {
      SplitWithoutComma(s[1..]);
      HeadTail(s);
    }
  }

  /** A comma in front of `s` opens an empty first piece. */
  lemma SplitCommaCons(s: string)
    ensures Split([','] + s) == [""] + Split(s)
  {
    ConsTail(',', s);
  }

  /** A character other than a comma in front of `s` joins the first piece. */
  lemma SplitNonCommaCons(c: char, s: string)
    requires c != ','
    ensures Split([c] + s) == [[c] + Split(s)[0]] + Split(s)[1..]
  {
    ConsTail(c, s);
  }

  /** One step of SplitAtComma: a character put in front of `a` keeps the distribution. */
  lemma SplitAtCommaStep(c: char, a: string, b: string)
    requires Split(a + [','] + b) == Split(a) + Split(b)
    ensures Split([c] + a + [','] + b) == Split([c] + a) + Split(b)
  {
    var tail := a + [','] + b;
    ConsAppendAssoc(c, a, ',', b);
    if c == ',' {
      SplitCommaCons(tail);
      SplitCommaCons(a);
      SeqConsAssoc("", Split(a), Split(b));
    } else {
      SplitNonCommaCons(c, a);
      SplitNonCommaConsAppend(c, tail, Split(a), Split(b));
    }
  }

  lemma SplitNonCommaConsAppend(c: char, tail: string, sa: seq<string>, sb: seq<string>)
    requires c != ','
    requires Split(tail) == sa + sb && |sa| >= 1
    ensures Split([c] + tail) == ([[c] + sa[0]] + sa[1..]) + sb
  {
    SplitNonCommaCons(c, tail);
    assert (sa + sb)[0] == sa[0];
    assert (sa + sb)[1..] == sa[1..] + sb;
  }

  /** A comma between `a` and `b` separates their pieces: split distributes over it. */
  lemma {:induction false} SplitAtComma(a: string, b: string)
    ensures Split(a + [','] + b) == Split(a) + Split(b)
  {
    if a == [] {
      assert a + [','] + b == [','] + b;
      SplitCommaCons(b);
    } else {
      SplitAtComma(a[1..], b);
      SplitAtCommaStep(a[0], a[1..], b);
      HeadTail(a);
    }
  }

  /** The decimal digit character for `d`. */
  function Digit(d: nat): (c: char)
    requires d < 10
    ensures '0' <= c <= '9'
  {
    "0123456789"[d]
  }

  predicate IsDigits(s: string) {
    forall i :: 0 <= i < |s| ==> '0' <= s[i] <= '9'
  }

  /** Number.prototype.toString() of a non-negative integer: its decimal digits. */
  function NatToString(n: nat): (r: string)
    ensures |r| >= 1 && IsDigits(r)
    ensures |r| == 1 <==> n < 10
    ensures r[|r| - 1] == Digit(n % 10)
  {
    if n < 10 then [Digit(n)] else NatToString(n / 10) + [Digit(n % 10)]
  }

  lemma DigitInjective(d: nat, e: nat)
    requires d < 10 && e < 10 && Digit(d) == Digit(e)
    ensures d == e
  {
  }

  /** Different numbers have different decimal renderings. */
  lemma {:induction false} NatToStringInjective(m: nat, n: nat)
    requires NatToString(m) == NatToString(n)
    ensures m == n
  {
    var a, b := NatToString(m), NatToString(n);
    DigitInjective(m % 10, n % 10);
    if m >= 10 {
      assert a[..|a| - 1] == NatToString(m / 10);
      assert b[..|b| - 1] == NatToString(n / 10);
      NatToStringInjective(m / 10, n / 10);
    }
  }
}
