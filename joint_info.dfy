/** JointInfo: one node of the design graph, the character tables of the design grammar,
    and the node token codec. A node token is `id x z typeDigit sizeRun`, for example
    `bNM2+++` (node b at x = 1, z = 0, a counter-clockwise motor of size 3). */
module Joints {
  import opened Basics

  /** Node identifier characters; the position of a character is the node index. */
  const NodeIdChars: seq<char> :=
    ['a', 'b', 'c', 'd', 'e', 'f', 'g', 'h', 'i', 'j', 'k', 'l', 'm', 'n', 'o', 'p', 'q', 'r', 's',
     't', 'u', 'v', 'w', 'x', 'y', 'z', '!', '@', '#', '$', '%', '&', '(', ')', '_', '=', '[', ']',
     '{', '}', '<', '>']

  /** Grid position characters; `M` is the centre, so positions run from -12 to 13. */
  const PositionChars: seq<char> :=
    ['A', 'B', 'C', 'D', 'E', 'F', 'G', 'H', 'I', 'J', 'K', 'L', 'M', 'N', 'O', 'P', 'Q', 'R', 'S',
     'T', 'U', 'V', 'W', 'X', 'Y', 'Z']

  /** getPositionIndex's result index before a match: the offset below is subtracted from it too. */
  const NoPositionMatch: int := -100000
  const PositionOffset: int := 12

  predicate InPositionRange(p: int) {
    -PositionOffset <= p < |PositionChars| - PositionOffset
  }

  /** The integer values 5 to 9, which a type digit can cast into the enumeration
      although no enumeration member carries them. */
  type UndefinedCode = n: int | 5 <= n <= 9 witness 5

  /** UAVComponentType; `Undefined` is the value of a cast from a digit above 4. */
  datatype ComponentType = Structure | MotorCW | MotorCCW | Foil | None | Undefined(code: UndefinedCode)

  /** The enumeration's integer value, `(int)componentType`. */
  function TypeCode(t: ComponentType): (n: int)
    ensures 0 <= n <= 9
  {
    match t
    case Structure => 0
    case MotorCW => 1
    case MotorCCW => 2
    case Foil => 3
    case None => 4
    case Undefined(c) => c
  }

  /** The cast `(UAVComponentType)n` of a parsed digit. */
  function TypeOfCode(n: int): (t: ComponentType)
    requires 0 <= n <= 9
    ensures TypeCode(t) == n
  {
    if n == 0 then Structure
    else if n == 1 then MotorCW
    else if n == 2 then MotorCCW
    else if n == 3 then Foil
    else if n == 4 then ComponentType.None
    else Undefined(n)
  }

  lemma TypeCodeInjective(t: ComponentType)
    ensures TypeOfCode(TypeCode(t)) == t
  {
  }

  /** The local x-scale of a component game object; prefab scales are positive. */
  type Scale = r: real | r > 0.0 witness 1.0

  /** The state of one JointInfo object, as a value. `component` is the component game object
      at the joint, given by its local x-scale, or None when `gameObj` is null. */
  datatype JointState = JointState(index: int, x: int, z: int, componentType: ComponentType,
                                   sizedata: int, locked: bool, component: Option<Scale>)

  /** The field values of a JointInfo before any assignment: C# defaults plus `sizedata = 0`. */
  const DefaultState: JointState := JointState(0, 0, 0, Structure, 0, false, Option.None)

  // ---------------------------------------------------------------- node identifiers

  /** What getNodeIndexByChar returns, in closed form: the table position of c, or -1 for a
      character outside the table. NodeIndexTable shows it is the first table position. */
  function NodeIndex(c: char): (i: int)
    ensures -1 <= i < |NodeIdChars|
  {
    if 'a' <= c <= 'z' then c as int - 'a' as int
    else match c
      case '!' => 26 case '@' => 27 case '#' => 28 case '$' => 29 case '%' => 30 case '&' => 31
      case '(' => 32 case ')' => 33 case '_' => 34 case '=' => 35 case '[' => 36 case ']' => 37
      case '{' => 38 case '}' => 39 case '<' => 40 case '>' => 41 case _ => -1
  }

  /** The identifier table has no repeated character, so a node index survives being
      written as its character and read back. */
  lemma NodeIndexOfChar(i: int)
    requires 0 <= i < |NodeIdChars|
    ensures NodeIndex(NodeIdChars[i]) == i
  {
  }

  lemma NodeCharOfIndex(c: char)
    requires NodeIndex(c) != -1
    ensures NodeIdChars[NodeIndex(c)] == c
  {
  }

  /** An id names the character c exactly when c's id is that id. */
  lemma NodeCharMatches(i: int, c: char)
    requires 0 <= i < |NodeIdChars|
    ensures NodeIdChars[i] == c <==> NodeIndex(c) == i
  {
    NodeIndexOfChar(i);
    if NodeIndex(c) == i {
      NodeCharOfIndex(c);
    }
  }

  /** The closed form is the table search: -1 exactly for characters outside the table, and
      otherwise the first (and only) position holding c. */
  lemma NodeIndexTable(c: char)
    ensures NodeIndex(c) == IndexOf(NodeIdChars, c)
    ensures NodeIndex(c) == -1 <==> c !in NodeIdChars
    ensures c in NodeIdChars ==> NodeIdChars[NodeIndex(c)] == c
  {
    if NodeIndex(c) != -1 {
      NodeCharOfIndex(c);
      IndexOfUnique(NodeIdChars, c, IndexOf(NodeIdChars, c));
      NodeIndexOfChar(IndexOf(NodeIdChars, c));
    } else if c in NodeIdChars {
      NodeIndexOfChar(IndexOf(NodeIdChars, c));
    }
  }

  /** getNodeIndexByChar: a linear search of the identifier table. */
  method GetNodeIndexByChar(c: char) returns (i: int)
    ensures i == NodeIndex(c)
  {
    var k := 0;
    while k < |NodeIdChars|
      invariant 0 <= k <= |NodeIdChars|
      invariant c !in NodeIdChars[..k]
    {
      if NodeIdChars[k] == c {
        NodeIndexOfChar(k);
        return k;
      }
      assert NodeIdChars[..k + 1] == NodeIdChars[..k] + [NodeIdChars[k]];
      k := k + 1;
    }
    assert NodeIdChars[..k] == NodeIdChars;
    NodeIndexTable(c);
    return -1;
  }

  // ---------------------------------------------------------------- positions

  /** getPositionChar. */
  function PositionChar(p: int): char
    requires InPositionRange(p)
  {
    PositionChars[p + PositionOffset]
  }

  /** What getPositionIndex returns: the table position minus 12 for `A`..`Z`,
      and -100000 - 12 for every other character. */
  function PositionIndex(c: char): int {
    if 'A' <= c <= 'Z' then c as int - 'A' as int - PositionOffset
    else NoPositionMatch - PositionOffset
  }

  lemma PositionCharsAreLetters(i: int)
    requires 0 <= i < |PositionChars|
    ensures PositionChars[i] as int == 'A' as int + i
  {
  }

  /** getPositionIndex: a search that keeps the last match and subtracts the offset. */
  method GetPositionIndex(c: char) returns (p: int)
    ensures p == PositionIndex(c)
  {
    var index := NoPositionMatch;
    var i := 0;
    while i < |PositionChars|
      invariant 0 <= i <= |PositionChars|
      invariant index == if 'A' as int <= c as int < 'A' as int + i then c as int - 'A' as int else NoPositionMatch
    {
      PositionCharsAreLetters(i);
      if c == PositionChars[i] {
        index := i;
      }
      i := i + 1;
    }
    p := index - PositionOffset;
  }

  lemma PositionRoundTrip(p: int)
    requires InPositionRange(p)
    ensures PositionIndex(PositionChar(p)) == p
  {
    PositionCharsAreLetters(p + PositionOffset);
  }

  lemma PositionCharOfIndex(c: char)
    requires c in PositionChars
    ensures InPositionRange(PositionIndex(c)) && PositionChar(PositionIndex(c)) == c
  {
    var i :| 0 <= i < |PositionChars| && PositionChars[i] == c;
    PositionCharsAreLetters(i);
  }

  lemma UnknownPosition(c: char)
    requires c !in PositionChars
    ensures PositionIndex(c) == -100012
  {
    if 'A' <= c <= 'Z' {
      var i := c as int - 'A' as int;
      PositionCharsAreLetters(i);
    }
  }

  // ---------------------------------------------------------------- sizes

  /** The run of `+` (positive) or `-` (negative) characters whose length is |n|. */
  function SizeRun(n: int): string {
    seq(AbsInt(n), _ => if n > 0 then '+' else '-')
  }

  /** getSizeString: appends one sign character per unit of size. */
  method GetSizeString(n: int) returns (s: string)
    ensures s == SizeRun(n)
    ensures |s| == AbsInt(n)
    ensures n > 0 ==> forall i :: 0 <= i < |s| ==> s[i] == '+'
    ensures n < 0 ==> forall i :: 0 <= i < |s| ==> s[i] == '-'
    ensures n == 0 ==> s == []
  {
    s := "";
    var i := 0;
    while i < AbsInt(n)
      invariant 0 <= i <= AbsInt(n)
      invariant s == SizeRun(n)[..i]
    {
      s := s + [if n > 0 then '+' else '-'];
      i := i + 1;
    }
  }

  /** fromString's size: the length of the run, negated when it starts with `-`. */
  function DecodeSize(run: string): int {
    if |run| > 0 && run[0] == '-' then -|run| else |run|
  }

  lemma SizeRoundTrip(n: int)
    ensures DecodeSize(SizeRun(n)) == n
  {
  }

  // ---------------------------------------------------------------- component types

  /** getNextComponentType: the editor's cycle None, Structure, MotorCW, MotorCCW, Foil. */
  function NextComponentType(t: ComponentType): ComponentType {
    match t
    case None => Structure
    case Structure => MotorCW
    case MotorCW => MotorCCW
    case MotorCCW => Foil
    case _ => ComponentType.None
  }

  function IterateNext(t: ComponentType, k: nat): ComponentType {
    if k == 0 then t else NextComponentType(IterateNext(t, k - 1))
  }

  /** The five named types form one cycle of length five. */
  lemma NextComponentTypeCycle(t: ComponentType)
    requires !t.Undefined?
    ensures IterateNext(t, 5) == t
    ensures forall k :: 1 <= k < 5 ==> IterateNext(t, k) != t
  {
    assert IterateNext(t, 1) == NextComponentType(t);
    assert IterateNext(t, 2) == NextComponentType(NextComponentType(t));
    assert IterateNext(t, 3) == NextComponentType(IterateNext(t, 2));
    assert IterateNext(t, 4) == NextComponentType(IterateNext(t, 3));
  }

  // ---------------------------------------------------------------- the node token codec

  /** The character of a type digit, `(int)componentType + ""`. */
  function TypeDigit(t: ComponentType): char {
    ('0' as int + TypeCode(t)) as char
  }

  predicate IsDigit(c: char) {
    '0' <= c <= '9'
  }

  /** grammar(): `*`, the identifier, both position characters, the type digit and the size run.
      None models the IndexOutOfRangeException of an index or position outside its table. */
  function Grammar(j: JointState): Option<string> {
    if 0 <= j.index < |NodeIdChars| && InPositionRange(j.x) && InPositionRange(j.z) then
      Some("*" + [NodeIdChars[j.index], PositionChar(j.x), PositionChar(j.z), TypeDigit(j.componentType)]
           + SizeRun(j.sizedata))
    else
      Option.None
  }

  /** fromString applied to a joint in state `prior`. Fields are set one after the other; a
      missing character or a type character that Int32.Parse rejects throws, and the handler
      keeps whatever had been assigned before the throw. */
  function Decode(s: string, prior: JointState): JointState {
    if |s| == 0 then prior
    else
      var withIndex := prior.(index := NodeIndex(s[0]));
      if |s| == 1 then withIndex
      else
        var withX := withIndex.(x := PositionIndex(s[1]));
        if |s| == 2 then withX
        else
          var withZ := withX.(z := PositionIndex(s[2]));
          if |s| == 3 || !IsDigit(s[3]) then withZ
          else withZ.(componentType := TypeOfCode(s[3] as int - '0' as int), sizedata := DecodeSize(s[4..]))
  }

  /** Round trip: reading back a joint's grammar without its leading `*` recovers index, x, z,
      component type and size; locked and the component object are not part of the text. */
  lemma DecodeGrammar(j: JointState, prior: JointState)
    requires Grammar(j).Some?
    ensures Decode(Grammar(j).value[1..], prior) == j.(locked := prior.locked, component := prior.component)
  {
    var s := Grammar(j).value[1..];
    var a := [NodeIdChars[j.index], PositionChar(j.x), PositionChar(j.z), TypeDigit(j.componentType)];
    assert s == a + SizeRun(j.sizedata);
    assert s[0] == NodeIdChars[j.index];
    assert s[1] == PositionChar(j.x);
    assert s[2] == PositionChar(j.z);
    assert s[3] == TypeDigit(j.componentType);
    NodeIndexOfChar(j.index);
    PositionRoundTrip(j.x);
    PositionRoundTrip(j.z);
    assert s[4..] == SizeRun(j.sizedata);
    SizeRoundTrip(j.sizedata);
    TypeCodeInjective(j.componentType);
  }

  /** A type character that is not a digit throws in Int32.Parse: index, x and z already hold
      their new values, type and size keep the old ones. */
  lemma DecodeNonDigitType(s: string, prior: JointState)
    requires |s| >= 4 && !IsDigit(s[3])
    ensures Decode(s, prior) == prior.(index := NodeIndex(s[0]), x := PositionIndex(s[1]), z := PositionIndex(s[2]))
  {
  }

  // ---------------------------------------------------------------- objects

  /** The static JointInfo.counter, as an object shared by everything that creates joints. */
  class IdCounter {
    var value: int

    constructor ()
      ensures value == 0
    {
      value := 0;
    }

    method Reset()
      modifies this
      ensures value == 0
    {
      value := 0;
    }
  }

  class JointInfo {
    var index: int
    var x: int
    var z: int
    var componentType: ComponentType
    var sizedata: int
    var locked: bool
    var component: Option<Scale>

    function State(): JointState
      reads this
    {
      JointState(index, x, z, componentType, sizedata, locked, component)
    }

    /** The main constructor: takes the counter's value as index and bumps the counter by one. */
    constructor (t: ComponentType, sizedata: int, x: int, z: int, component: Option<Scale>, counter: IdCounter)
      modifies counter
      ensures State() == JointState(old(counter.value), x, z, t, sizedata, false, component)
      ensures counter.value == old(counter.value) + 1
    {
      this.componentType := t;
      this.sizedata := sizedata;
      this.x := x;
      this.z := z;
      this.component := component;
      this.index := counter.value;
      this.locked := false;
      new;
      counter.value := counter.value + 1;
    }

    /** The string constructor: decodes a node token into a fresh joint; the counter is not involved. */
    constructor FromGrammar(s: string)
      ensures State() == Decode(s, DefaultState)
    {
      index, x, z := 0, 0, 0;
      componentType := Structure;
      sizedata := 0;
      locked := false;
      component := Option.None;
      new;
      FromString(s);
    }

    /** fromString: assigns the fields step by step; an exception ends the assignments. */
    method FromString(s: string)
      modifies this
      ensures State() == Decode(s, old(State()))
    {
      ghost var prior := State();
      if |s| == 0 {
        return;
      }
      var i := GetNodeIndexByChar(s[0]);
      index := i;
      if |s| == 1 {
        assert State() == Decode(s, prior);
        return;
      }
      var px := GetPositionIndex(s[1]);
      x := px;
      if |s| == 2 {
        assert State() == Decode(s, prior);
        return;
      }
      var pz := GetPositionIndex(s[2]);
      z := pz;
      if |s| == 3 || !IsDigit(s[3]) {
        assert State() == Decode(s, prior);
        return;
      }
      componentType := TypeOfCode(s[3] as int - '0' as int);
      var sizeStr := s[4..];
      var l := |sizeStr|;
      if l > 0 {
        if sizeStr[0] == '-' {
          l := -l;
        }
      }
      sizedata := l;
      assert State() == Decode(s, prior);
    }
  }
}
