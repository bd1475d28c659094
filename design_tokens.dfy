/** Tokenising of a design string such as `*aMM0+++++*bNM2+++^ab,5,3`: node tokens after `*`,
    edge tokens after `^`, and a `,capacity,controller` suffix whose capacity field is read
    back as an integer. */
module DesignTokens {
  import opened Basics
  import opened Joints

  // ---------------------------------------------------------------- String.Split and its inverse

  /** Joining pieces with a separator character, the inverse of Split. */
  function Join(ps: seq<string>, d: char): string
    requires |ps| >= 1
  {
    if |ps| == 1 then ps[0] else ps[0] + [d] + Join(ps[1..], d)
  }

  /** String.Split(d): the maximal pieces between separators; there is always at least one
      piece, and k separators give k + 1 pieces (empty ones included). */
  function Split(s: string, d: char): (r: seq<string>)
    ensures |r| >= 1
    ensures forall i :: 0 <= i < |r| ==> d !in r[i]
    ensures Join(r, d) == s
    decreases |s|
  {
    var i := IndexOf(s, d);
    if i == -1 then [s]
    else
      var rest := Split(s[i + 1..], d);
      var r := [s[..i]] + rest;
      assert r[1..] == rest;
      assert Join(r, d) == s[..i] + [d] + Join(rest, d);
      assert s == s[..i] + [d] + s[i + 1..];
      assert forall k :: 1 <= k < |r| ==> r[k] == rest[k - 1];
      r
  }

  lemma SplitNoSeparator(a: string, d: char)
    requires d !in a
    ensures Split(a, d) == [a]
  {
  }

  /** The first separator after a separator-free prefix ends the first piece. */
  lemma {:induction false} SplitAfterPrefix(a: string, d: char, b: string)
    requires d !in a
    ensures Split(a + [d] + b, d) == [a] + Split(b, d)
  {
    var s := a + [d] + b;
    assert s[..|a|] == a;
    assert s[|a|] == d;
    IndexOfUnique(s, d, |a|);
    assert s[|a| + 1..] == b;
  }

  /** Splitting the join of separator-free pieces gives the pieces back. */
  lemma {:induction false} SplitJoin(ps: seq<string>, d: char)
    requires |ps| >= 1
    requires forall i :: 0 <= i < |ps| ==> d !in ps[i]
    ensures Split(Join(ps, d), d) == ps
    decreases |ps|
  {
    if |ps| == 1 {
      SplitNoSeparator(ps[0], d);
    } else {
      SplitJoin(ps[1..], d);
      SplitAfterPrefix(ps[0], d, Join(ps[1..], d));
      assert ps == [ps[0]] + ps[1..];
    }
  }

  /** The first piece is the text before the first separator. */
  lemma SplitFirstPiece(a: string, d: char, b: string)
    requires d !in a
    requires |b| == 0 || b[0] == d
    ensures Split(a + b, d)[0] == a
  {
    if |b| == 0 {
      assert a + b == a;
      SplitNoSeparator(a, d);
    } else {
      assert a + b == a + [d] + b[1..];
      SplitAfterPrefix(a, d, b[1..]);
    }
  }

  // ---------------------------------------------------------------- design strings

  /** Each token preceded by the marker character, as grammar() writes node and edge tokens. */
  function Marked(m: char, ts: seq<string>): string {
    if |ts| == 0 then "" else [m] + ts[0] + Marked(m, ts[1..])
  }

  lemma {:induction false} MarkedIsJoin(a: string, m: char, ts: seq<string>)
    ensures a + Marked(m, ts) == Join([a] + ts, m)
    decreases |ts|
  {
    if |ts| > 0 {
      MarkedIsJoin(ts[0], m, ts[1..]);
      assert ([a] + ts)[1..] == [ts[0]] + ts[1..];
      assert [ts[0]] + ts[1..] == ts;
    }
  }

  lemma {:induction false} MarkedFree(m: char, ts: seq<string>, c: char)
    requires c != m
    requires forall i :: 0 <= i < |ts| ==> c !in ts[i]
    ensures c !in Marked(m, ts)
    decreases |ts|
  {
    if |ts| > 0 {
      MarkedFree(m, ts[1..], c);
    }
  }

  /** A design string: node tokens, edge tokens and the `,capacity,controller` suffix. */
  function Design(nodes: seq<string>, edges: seq<string>, suffix: string): string {
    Marked('*', nodes) + Marked('^', edges) + suffix
  }

  /** The characters a node token of grammar() is made of never include a separator. */
  predicate NodeTokenText(t: string) {
    '*' !in t && '^' !in t && ',' !in t
  }

  predicate EdgeTokenText(t: string) {
    '^' !in t && ',' !in t
  }

  /** A well-formed design: separator-free tokens and a suffix that starts with `,`. */
  predicate WellFormedDesign(nodes: seq<string>, edges: seq<string>, suffix: string) {
    (forall i :: 0 <= i < |nodes| ==> NodeTokenText(nodes[i])) &&
    (forall i :: 0 <= i < |edges| ==> EdgeTokenText(edges[i])) &&
    (|suffix| == 0 || suffix[0] == ',')
  }

  lemma NodeGrammarIsTokenText(j: JointState)
    requires Grammar(j).Some?
    ensures Grammar(j).value[0] == '*' && NodeTokenText(Grammar(j).value[1..])
  {
    var head := [NodeIdChars[j.index], PositionChar(j.x), PositionChar(j.z), TypeDigit(j.componentType)];
    var run := SizeRun(j.sizedata);
    assert Grammar(j).value[1..] == head + run;
    IdCharIsNoSeparator(j.index);
    PositionCharsAreLetters(j.x + PositionOffset);
    PositionCharsAreLetters(j.z + PositionOffset);
    assert NodeTokenText(head);
    assert NodeTokenText(run);
  }

  /** No identifier character is a separator. */
  lemma IdCharIsNoSeparator(i: int)
    requires 0 <= i < |NodeIdChars|
    ensures NodeIdChars[i] != '*' && NodeIdChars[i] != '^' && NodeIdChars[i] != ','
  {
    NodeIndexOfChar(i);
  }

  /** The node tokens as fromstring cuts them: the `*` pieces of the text before the first
      `^`, less the first piece. */
  function NodeTokens(s: string): seq<string> {
    Split(Split(s, '^')[0], '*')[1..]
  }

  /** The edge tokens: the `^` pieces of the text before the first `,`, less the first piece. */
  function EdgeTokens(s: string): seq<string> {
    Split(Split(s, ',')[0], '^')[1..]
  }

  /** The node tokens when the text is first cut at the first `,` as the edge tokens are. */
  function NodeTokensCut(s: string): seq<string> {
    Split(Split(Split(s, ',')[0], '^')[0], '*')[1..]
  }

  /** The text before the suffix of a well-formed design. */
  lemma DesignHead(nodes: seq<string>, edges: seq<string>, suffix: string)
    requires WellFormedDesign(nodes, edges, suffix)
    ensures Split(Design(nodes, edges, suffix), ',')[0] == Marked('*', nodes) + Marked('^', edges)
    ensures '^' !in Marked('*', nodes) && ',' !in Marked('*', nodes) + Marked('^', edges)
  {
    MarkedFree('*', nodes, '^');
    MarkedFree('*', nodes, ',');
    MarkedFree('^', edges, ',');
    var head := Marked('*', nodes) + Marked('^', edges);
    assert Design(nodes, edges, suffix) == head + suffix;
    SplitFirstPiece(head, ',', suffix);
  }

  lemma MarkedSplit(m: char, ts: seq<string>)
    requires forall i :: 0 <= i < |ts| ==> m !in ts[i]
    ensures Split(Marked(m, ts), m)[1..] == ts
  {
    MarkedIsJoin("", m, ts);
    assert "" + Marked(m, ts) == Marked(m, ts);
    SplitJoin([""] + ts, m);
  }

  /** Round trip for edges: a well-formed design splits back into exactly its edge tokens. */
  lemma EdgeTokensOfDesign(nodes: seq<string>, edges: seq<string>, suffix: string)
    requires WellFormedDesign(nodes, edges, suffix)
    ensures EdgeTokens(Design(nodes, edges, suffix)) == edges
  {
    DesignHead(nodes, edges, suffix);
    var cn := Marked('*', nodes);
    MarkedIsJoin(cn, '^', edges);
    SplitJoin([cn] + edges, '^');
    assert ([cn] + edges)[1..] == edges;
  }

  /** Round trip for nodes, with the cut at `,`: exactly the node tokens, with or without edges. */
  lemma NodeTokensCutOfDesign(nodes: seq<string>, edges: seq<string>, suffix: string)
    requires WellFormedDesign(nodes, edges, suffix)
    ensures NodeTokensCut(Design(nodes, edges, suffix)) == nodes
  {
    DesignHead(nodes, edges, suffix);
    var cn := Marked('*', nodes);
    MarkedIsJoin(cn, '^', edges);
    SplitJoin([cn] + edges, '^');
    MarkedSplit('*', nodes);
  }

  /** As written, the node tokens are right whenever the design has at least one edge. */
  lemma NodeTokensOfDesign(nodes: seq<string>, edges: seq<string>, suffix: string)
    requires WellFormedDesign(nodes, edges, suffix)
    requires |edges| > 0
    ensures NodeTokens(Design(nodes, edges, suffix)) == nodes
    ensures NodeTokens(Design(nodes, edges, suffix)) == NodeTokensCut(Design(nodes, edges, suffix))
  {
    MarkedFree('*', nodes, '^');
    var cn := Marked('*', nodes);
    var rest := Marked('^', edges) + suffix;
    assert Design(nodes, edges, suffix) == cn + rest;
    SplitFirstPiece(cn, '^', rest);
    MarkedSplit('*', nodes);
    NodeTokensCutOfDesign(nodes, edges, suffix);
  }

  lemma {:induction false} MarkedAppend(m: char, ts: seq<string>, suffix: string)
    requires |ts| > 0
    ensures Marked(m, ts) + suffix == Marked(m, ts[..|ts| - 1] + [ts[|ts| - 1] + suffix])
    decreases |ts|
  {
    var us := ts[..|ts| - 1] + [ts[|ts| - 1] + suffix];
    if |ts| == 1 {
      assert us == [ts[0] + suffix];
    } else {
      MarkedAppend(m, ts[1..], suffix);
      assert us[0] == ts[0];
      assert us[1..] == ts[1..][..|ts[1..]| - 1] + [ts[1..][|ts[1..]| - 1] + suffix];
    }
  }

  /** As written, a design without edges hands the whole suffix to its last node token. */
  lemma NodeTokensWithoutEdges(nodes: seq<string>, suffix: string)
    requires WellFormedDesign(nodes, [], suffix) && |nodes| > 0
    requires '^' !in suffix && '*' !in suffix
    ensures NodeTokens(Design(nodes, [], suffix)) == nodes[..|nodes| - 1] + [nodes[|nodes| - 1] + suffix]
  {
    var us := nodes[..|nodes| - 1] + [nodes[|nodes| - 1] + suffix];
    MarkedAppend('*', nodes, suffix);
    assert Design(nodes, [], suffix) == Marked('*', us);
    forall i | 0 <= i < |us| ensures '^' !in us[i] && '*' !in us[i] {
      if i < |nodes| - 1 {
        assert us[i] == nodes[i];
      }
    }
    MarkedFree('*', us, '^');
    SplitNoSeparator(Marked('*', us), '^');
    MarkedSplit('*', us);
  }

  /** The finding in numbers: `*aMM0+,5,3` (one structure of size 1, no edges) yields the node
      token `aMM0+,5,3`, whose size run `+,5,3` decodes to 5; the cut at `,` yields `aMM0+`. */
  lemma NodeTokensAbsorbSuffix()
    ensures NodeTokens("*aMM0+,5,3") == ["aMM0+,5,3"]
    ensures Decode(NodeTokens("*aMM0+,5,3")[0], DefaultState).sizedata == 5
    ensures NodeTokensCut("*aMM0+,5,3") == ["aMM0+"]
    ensures Decode(NodeTokensCut("*aMM0+,5,3")[0], DefaultState).sizedata == 1
  {
    AbsorbedToken();
    CutToken();
    TokenSizes();
  }

  lemma TokenSizes()
    ensures Decode("aMM0+,5,3", DefaultState).sizedata == 5
    ensures Decode("aMM0+", DefaultState).sizedata == 1
  {
    assert "aMM0+,5,3"[4..] == "+,5,3";
    DecodedSize("aMM0+,5,3");
    assert "aMM0+"[4..] == "+";
    DecodedSize("aMM0+");
  }

  lemma AbsorbedToken()
    ensures NodeTokens("*aMM0+,5,3") == ["aMM0+,5,3"]
  {
    var nodes := ["aMM0+"];
    assert NodeTokenText(nodes[0]);
    var d := Design(nodes, [], ",5,3");
    assert d == "*aMM0+,5,3";
    NodeTokensWithoutEdges(nodes, ",5,3");
    var absorbed := "aMM0+" + ",5,3";
    assert absorbed == "aMM0+,5,3";
    assert nodes[..0] + [nodes[0] + ",5,3"] == [absorbed];
    assert NodeTokens(d) == [absorbed];
  }

  lemma CutToken()
    ensures NodeTokensCut("*aMM0+,5,3") == ["aMM0+"]
  {
    var nodes := ["aMM0+"];
    assert NodeTokenText(nodes[0]);
    assert Design(nodes, [], ",5,3") == "*aMM0+,5,3";
    NodeTokensCutOfDesign(nodes, [], ",5,3");
  }

/** A design with two node tokens and no edges, the second behind the first `,`. */
  const SharedKeyDesign: string := "*aMM0,*aMM0"

  /** As written the design gives the node tokens `aMM0,` and `aMM0`; cut at `,` it gives `aMM0`
      alone; it has no edge tokens. */
  lemma SharedKeyTokens()
    ensures NodeTokens(SharedKeyDesign) == ["aMM0,", "aMM0"]
    ensures NodeTokensCut(SharedKeyDesign) == ["aMM0"]
    ensures EdgeTokens(SharedKeyDesign) == []
  {
    SharedKeyAsWritten();
    SharedKeyCut();
  }

  lemma SharedKeyCut()
    ensures NodeTokensCut(SharedKeyDesign) == ["aMM0"]
    ensures EdgeTokens(SharedKeyDesign) == []
  {
    var nodes := ["aMM0"];
    assert NodeTokenText(nodes[0]);
    assert Design(nodes, [], ",*aMM0") == SharedKeyDesign;
    NodeTokensCutOfDesign(nodes, [], ",*aMM0");
    EdgeTokensOfDesign(nodes, [], ",*aMM0");
  }

  lemma SharedKeyAsWritten()
    ensures NodeTokens(SharedKeyDesign) == ["aMM0,", "aMM0"]
  {
    var ts := ["aMM0,", "aMM0"];
    assert '^' !in ts[0] && '^' !in ts[1] && '*' !in ts[0] && '*' !in ts[1];
    NodeTokensOfMarked(ts);
    assert Marked('*', ts) == SharedKeyDesign;
  }

  /** Node tokens free of `*` and `^`, each behind a `*`, split back into themselves. */
  lemma NodeTokensOfMarked(ts: seq<string>)
    requires forall i :: 0 <= i < |ts| ==> '^' !in ts[i] && '*' !in ts[i]
    ensures NodeTokens(Marked('*', ts)) == ts
  {
    MarkedFree('*', ts, '^');
    SplitNoSeparator(Marked('*', ts), '^');
    MarkedSplit('*', ts);
  }

  lemma DecodedSize(t: string)
    requires |t| >= 4 && IsDigit(t[3])
    ensures Decode(t, DefaultState).sizedata == DecodeSize(t[4..])
  {
  }

  // ---------------------------------------------------------------- the capacity field

  function DigitValue(c: char): int {
    c as int - '0' as int
  }

  predicate AllDigits(s: string) {
    forall i :: 0 <= i < |s| ==> IsDigit(s[i])
  }

  /** The value of a decimal digit string (0 for the empty string). */
  function DigitsValue(s: string): nat
    requires AllDigits(s)
  {
    if |s| == 0 then 0 else DigitsValue(s[..|s| - 1]) * 10 + DigitValue(s[|s| - 1])
  }

  /** The decimal numeral of n, as `n + ""` prints it. */
  function NatString(n: nat): (s: string)
    ensures |s| >= 1 && AllDigits(s)
  {
    if n < 10 then [('0' as int + n) as char] else NatString(n / 10) + [('0' as int + n % 10) as char]
  }

  lemma {:induction false} NatStringValue(n: nat)
    ensures DigitsValue(NatString(n)) == n
    decreases n
  {
    if n >= 10 {
      NatStringValue(n / 10);
      var s := NatString(n);
      assert s[..|s| - 1] == NatString(n / 10);
    }
  }

  /** A digit-string reading of double.Parse followed by the (int) cast: an optional `-`,
      digits, and an optional fraction after `.`, truncated toward zero. None is the
      FormatException of any other text. */
  function ParseNumber(f: string): Option<int> {
    var neg := |f| > 0 && f[0] == '-';
    var body := if neg then f[1..] else f;
    var dot := IndexOf(body, '.');
    var whole := if dot == -1 then body else body[..dot];
    var frac := if dot == -1 then "" else body[dot + 1..];
    if AllDigits(whole) && AllDigits(frac) && |whole| + |frac| > 0 then
      var v: int := DigitsValue(whole);
      Some(if neg then -v else v)
    else Option.None
  }

  /** getCapacity: the second `,` field read as a number, or -1 when there is no such field or
      it does not parse. */
  function Capacity(s: string): (r: int)
    ensures |Split(s, ',')| < 2 ==> r == -1
  {
    var fields := Split(s, ',');
    if |fields| < 2 then -1
    else match ParseNumber(fields[1])
      case Some(v) => v
      case None => -1
  }

  lemma ParseNatString(n: nat)
    ensures ParseNumber(NatString(n)) == Some(n)
  {
    var s := NatString(n);
    NatStringValue(n);
    assert '.' !in s by {
      forall i | 0 <= i < |s| ensures s[i] != '.' {
        assert IsDigit(s[i]);
      }
    }
  }

  /** The fraction is cut off toward zero, as the (int) cast does, and text that is not a
      number gives None. */
  lemma ParseTruncates()
    ensures ParseNumber("5.9") == Some(5)
    ensures ParseNumber("-2.5") == Some(-2)
    ensures ParseNumber("") == Option.None && ParseNumber("x") == Option.None
  {
    ParsePositive();
    ParseNegative();
  }

  lemma ParsePositive()
    ensures ParseNumber("5.9") == Some(5)
  {
    assert "5.9"[..1] == "5" && "5.9"[2..] == "9";
    assert "5"[..0] == "";
  }

  lemma ParseNegative()
    ensures ParseNumber("-2.5") == Some(-2)
  {
    assert "-2.5"[1..] == "2.5";
    assert "2.5"[..1] == "2" && "2.5"[2..] == "5";
    assert "2"[..0] == "";
  }

  /** The second `,` field of a text whose first two `,` fields are a and b is b. */
  lemma SecondField(a: string, b: string, c: string)
    requires ',' !in a && ',' !in b
    ensures var fs := Split(a + ([','] + b + [','] + c), ','); |fs| >= 2 && fs[1] == b
  {
    Regroup(a, b, c);
    SplitAfterPrefix(a, ',', b + [','] + c);
    SplitAfterPrefix(b, ',', c);
  }

  lemma Regroup(a: string, b: string, c: string)
    ensures a + ([','] + b + [','] + c) == a + [','] + (b + [','] + c)
  {
  }

  /** A design string whose suffix is `,` capacity `,` controller reads back its capacity, for
      every capacity the (int) cast can hold. */
  lemma CapacityOfDesign(nodes: seq<string>, edges: seq<string>, cap: nat, ctrl: string)
    requires WellFormedDesign(nodes, edges, ",")
    requires cap < 0x8000_0000
    ensures Capacity(Design(nodes, edges, "," + NatString(cap) + "," + ctrl)) == cap
  {
    DesignHead(nodes, edges, ",");
    var head := Marked('*', nodes) + Marked('^', edges);
    var num := NatString(cap);
    assert ',' !in num by {
      forall i | 0 <= i < |num| ensures num[i] != ',' {
        assert IsDigit(num[i]);
      }
    }
    var suffix := "," + num + "," + ctrl;
    assert Design(nodes, edges, suffix) == head + suffix;
    SecondField(head, num, ctrl);
    ParseNatString(cap);
    CapacityIsSecondField(head + suffix, num);
  }

  lemma CapacityIsSecondField(s: string, b: string)
    requires |Split(s, ',')| >= 2 && Split(s, ',')[1] == b
    ensures Capacity(s) == (if ParseNumber(b).Some? then ParseNumber(b).value else -1)
  {
  }

  /** Without a second field the capacity is -1. */
  lemma CapacityMissing(s: string)
    requires ',' !in s
    ensures Capacity(s) == -1
  {
    SplitNoSeparator(s, ',');
  }
}
