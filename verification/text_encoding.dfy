// Decimal numbers, lines of words and length-prefixed fields, each shown to be read back in one way only,
// and the order of strings.
module TextEncoding {

  // ---- Decimal numbers ----

  function Digit(d: nat): char
    requires d < 10
  {
    '0' + d as char
  }

  function Decimal(n: nat): (s: string)
    ensures s != "" && forall i :: 0 <= i < |s| ==> '0' <= s[i] <= '9'
  {
    if n < 10 then [Digit(n)] else Decimal(n / 10) + [Digit(n % 10)]
  }

  /** The number a string of digits denotes. */
  function Number(s: string): nat {
    if s == "" then 0
    else Number(s[..|s| - 1]) * 10 + if '0' <= s[|s| - 1] <= '9' then (s[|s| - 1] - '0') as nat else 0
  }

  lemma {:induction false} NumberOfDecimal(n: nat)
    ensures Number(Decimal(n)) == n
  {
    if n >= 10 {
      NumberOfDecimal(n / 10);
      assert Decimal(n)[..|Decimal(n)| - 1] == Decimal(n / 10);
    }
  }

  lemma {:induction false} DecimalInjective(a: nat, b: nat)
    requires Decimal(a) == Decimal(b)
    ensures a == b
  {
    NumberOfDecimal(a);
    NumberOfDecimal(b);
  }

  // ---- Words, lines and texts ----

  predicate Separator(c: char) { c == ' ' || c == '\n' }

  predicate IsWord(w: string) { forall i :: 0 <= i < |w| ==> !Separator(w[i]) }

  predicate Words(ws: seq<string>) { ws != [] && forall i :: 0 <= i < |ws| ==> IsWord(ws[i]) }

  /** Words separated by blanks, ended by a newline. */
  function Line(ws: seq<string>): string {
    if |ws| == 0 then "\n" else if |ws| == 1 then ws[0] + "\n" else ws[0] + " " + Line(ws[1..])
  }

  function Text(lines: seq<seq<string>>): string {
    if lines == [] then "" else Line(lines[0]) + Text(lines[1..])
  }

  lemma {:induction false} WordIsFirst(w1: string, c1: char, rest1: string, w2: string, c2: char, rest2: string)
    requires IsWord(w1) && IsWord(w2) && Separator(c1) && Separator(c2)
    requires w1 + [c1] + rest1 == w2 + [c2] + rest2
    ensures w1 == w2 && c1 == c2 && rest1 == rest2
  {
    var s1, s2 := w1 + [c1] + rest1, w2 + [c2] + rest2;
    assert s1[|w1|] == c1 && s2[|w2|] == c2;
    assert |w1| == |w2|;
    assert w1 == s1[..|w1|] && w2 == s2[..|w1|];
    assert rest1 == s1[|w1| + 1..] && rest2 == s2[|w1| + 1..];
  }

  lemma {:induction false} LineIsFirst(a: seq<string>, rest1: string, b: seq<string>, rest2: string)
    requires Words(a) && Words(b) && Line(a) + rest1 == Line(b) + rest2
    ensures a == b && rest1 == rest2
    decreases |a|
  {
    var t1 := if |a| == 1 then rest1 else Line(a[1..]) + rest1;
    var t2 := if |b| == 1 then rest2 else Line(b[1..]) + rest2;
    var c1 := if |a| == 1 then '\n' else ' ';
    var c2 := if |b| == 1 then '\n' else ' ';
    assert Line(a) + rest1 == a[0] + [c1] + t1;
    assert Line(b) + rest2 == b[0] + [c2] + t2;
    WordIsFirst(a[0], c1, t1, b[0], c2, t2);
    if |a| > 1 {
      LineIsFirst(a[1..], rest1, b[1..], rest2);
      assert a == [a[0]] + a[1..] && b == [b[0]] + b[1..];
    }
  }

  /** A text determines its lines and their words. */
  lemma {:induction false} TextInjective(a: seq<seq<string>>, b: seq<seq<string>>)
    requires (forall i :: 0 <= i < |a| ==> Words(a[i])) && (forall i :: 0 <= i < |b| ==> Words(b[i]))
    requires Text(a) == Text(b)
    ensures a == b
    decreases |a|
  {
    if a == [] || b == [] {
      if a != [] { LineIsNotEmpty(a[0]); }
      if b != [] { LineIsNotEmpty(b[0]); }
    } else {
      LineIsFirst(a[0], Text(a[1..]), b[0], Text(b[1..]));
      TextInjective(a[1..], b[1..]);
      assert a == [a[0]] + a[1..] && b == [b[0]] + b[1..];
    }
  }

  lemma {:induction false} LineIsNotEmpty(ws: seq<string>)
    ensures |Line(ws)| > 0
  {
  }

  // ---- Length-prefixed fields ----

  /** name:length:value and a newline; the value may hold any character. */
  function Field(name: string, value: string): string {
    name + ":" + Decimal(|value|) + ":" + value + "\n"
  }

  predicate NoColon(s: string) { forall i :: 0 <= i < |s| ==> s[i] != ':' }

  lemma {:induction false} ColonIsFirst(a: string, rest1: string, b: string, rest2: string)
    requires NoColon(a) && NoColon(b) && a + ":" + rest1 == b + ":" + rest2
    ensures a == b && rest1 == rest2
  {
    var s1, s2 := a + ":" + rest1, b + ":" + rest2;
    assert s1[|a|] == ':' && s2[|b|] == ':';
    assert |a| == |b|;
    assert a == s1[..|a|] && b == s2[..|a|];
    assert rest1 == s1[|a| + 1..] && rest2 == s2[|a| + 1..];
  }

  /** A field at the front of a string determines its name, its value and what follows. */
  lemma {:induction false} FieldIsFirst(name1: string, v1: string, rest1: string, name2: string, v2: string,
                                        rest2: string)
    requires NoColon(name1) && NoColon(name2) && Field(name1, v1) + rest1 == Field(name2, v2) + rest2
    ensures name1 == name2 && v1 == v2 && rest1 == rest2
  {
    var t1, t2 := Decimal(|v1|) + ":" + (v1 + "\n" + rest1), Decimal(|v2|) + ":" + (v2 + "\n" + rest2);
    assert Field(name1, v1) + rest1 == name1 + ":" + t1;
    assert Field(name2, v2) + rest2 == name2 + ":" + t2;
    ColonIsFirst(name1, t1, name2, t2);
    ColonIsFirst(Decimal(|v1|), v1 + "\n" + rest1, Decimal(|v2|), v2 + "\n" + rest2);
    DecimalInjective(|v1|, |v2|);
    var u1, u2 := v1 + "\n" + rest1, v2 + "\n" + rest2;
    assert v1 == u1[..|v1|] && v2 == u2[..|v1|];
    assert rest1 == u1[|v1| + 1..] && rest2 == u2[|v1| + 1..];
  }

  // ---- Order ----

  /** Lexicographic order, a proper prefix first. */
  predicate Before(a: string, b: string) {
    b != "" && (a == "" || a[0] < b[0] || (a[0] == b[0] && Before(a[1..], b[1..])))
  }

  /** The first k characters agree, and there `a` ends or has the smaller character. */
  ghost predicate SplitAt(a: string, b: string, k: nat) {
    k <= |a| && k < |b| && a[..k] == b[..k] && (k == |a| || a[k] < b[k])
  }

  lemma {:induction false} BeforeIsLexicographic(a: string, b: string)
    ensures Before(a, b) <==> exists k :: SplitAt(a, b, k)
    decreases |a|
  {
    if a == "" || b == "" {
      assert b != "" ==> SplitAt(a, b, 0);
    } else if a[0] != b[0] {
      assert a[0] < b[0] ==> SplitAt(a, b, 0);
      forall k | 0 < k <= |a| && k <= |b| ensures a[..k] != b[..k] {
        assert a[..k][0] != b[..k][0];
      }
    } else {
      var c, d := a[1..], b[1..];
      BeforeIsLexicographic(c, d);
      forall k: nat | SplitAt(c, d, k) ensures SplitAt(a, b, k + 1) {
        assert a[..k + 1] == [a[0]] + c[..k] && b[..k + 1] == [b[0]] + d[..k];
      }
      forall k: nat | SplitAt(a, b, k) ensures k > 0 && SplitAt(c, d, k - 1) {
        assert c[..k - 1] == a[..k][1..] && d[..k - 1] == b[..k][1..];
      }
    }
  }

  lemma {:induction false} BeforeTotal(a: string, b: string)
    ensures a == b || Before(a, b) || Before(b, a)
    decreases |a|
  {
    if a != "" && b != "" && a[0] == b[0] {
      BeforeTotal(a[1..], b[1..]);
      assert a == [a[0]] + a[1..] && b == [b[0]] + b[1..];
    }
  }

  lemma {:induction false} BeforeTransitive(a: string, b: string, c: string)
    requires Before(a, b) && Before(b, c)
    ensures Before(a, c)
    decreases |a|
  {
    if a != "" && a[0] == b[0] == c[0] { BeforeTransitive(a[1..], b[1..], c[1..]); }
  }

  lemma {:induction false} BeforeIrreflexive(a: string)
    ensures !Before(a, a)
  {
    if a != "" { BeforeIrreflexive(a[1..]); }
  }
}
