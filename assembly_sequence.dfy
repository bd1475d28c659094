/** The assembly sequence of a design string: the node dictionary read from the node tokens,
    the edge tokens filed under their destination index (cycle edges deferred past the
    largest one), and the connector direction an edge's grid delta selects. In every
    function here None stands for an exception that abandons the whole design parse. */
module AssemblySequence {
  import opened Basics
  import opened Joints

  // ---------------------------------------------------------------- the node dictionary

  /** The joint a node token describes: `new JointInfo(t)`. */
  function Decoded(t: string): JointState {
    Decode(t, DefaultState)
  }

  function DecodedAll(tokens: seq<string>): (js: seq<JointState>)
    ensures |js| == |tokens| && forall i :: 0 <= i < |tokens| ==> js[i] == Decoded(tokens[i])
  {
    seq(|tokens|, i requires 0 <= i < |tokens| => Decoded(tokens[i]))
  }

  /** getNodeIDAsString indexes the identifier table, so only these joints have a key. */
  predicate HasKey(j: JointState) {
    0 <= j.index < |NodeIdChars|
  }

  /** The dictionary of decoded joints keyed by identifier character; Dictionary.Add throws
      on a repeated key, and getNodeIDAsString on an index outside the table. */
  function Keyed(js: seq<JointState>): Option<map<char, JointState>>
    decreases |js|
  {
    if |js| == 0 then Some(map[])
    else match Keyed(js[..|js| - 1])
      case None => Option.None
      case Some(m) =>
        var j := js[|js| - 1];
        if !HasKey(j) || NodeIdChars[j.index] in m then Option.None
        else Some(m[NodeIdChars[j.index] := j])
  }

  /** The `nodes` dictionary of fromstring. */
  function NodeTable(tokens: seq<string>): Option<map<char, JointState>> {
    Keyed(DecodedAll(tokens))
  }

  lemma {:induction false} KeyedAbandoned(js: seq<JointState>, n: nat)
    requires n <= |js| && Keyed(js[..n]) == Option.None
    ensures Keyed(js) == Option.None
    decreases |js| - n
  {
    if n < |js| {
      assert js[..n + 1][..n] == js[..n];
      KeyedAbandoned(js, n + 1);
    } else {
      assert js[..n] == js;
    }
  }

  /** The loop of fromstring that fills `nodes`. */
  method BuildNodes(tokens: seq<string>) returns (r: Option<map<char, JointState>>)
    ensures r == NodeTable(tokens)
  {
    ghost var js := DecodedAll(tokens);
    var nodes: map<char, JointState> := map[];
    var i := 0;
    while i < |tokens|
      invariant 0 <= i <= |tokens|
      invariant Keyed(js[..i]) == Some(nodes)
    {
      assert js[..i + 1][..i] == js[..i];
      var j := DecodeToken(tokens[i]);
      if !(0 <= j.index < |NodeIdChars|) || NodeIdChars[j.index] in nodes {
        KeyedAbandoned(js, i + 1);
        return Option.None;
      }
      nodes := nodes[NodeIdChars[j.index] := j];
      i := i + 1;
    }
    assert js[..i] == js;
    r := Some(nodes);
  }

  /** `new JointInfo(t)`, read back as its state. */
  method DecodeToken(t: string) returns (j: JointState)
    ensures j == Decoded(t)
  {
    var info := new JointInfo.FromGrammar(t);
    j := info.State();
  }

  /** Distinct table positions hold distinct characters. */
  lemma TableInjective(a: int, b: int)
    requires 0 <= a < |NodeIdChars| && 0 <= b < |NodeIdChars|
    requires NodeIdChars[a] == NodeIdChars[b]
    ensures a == b
  {
    NodeIndexOfChar(a);
    NodeIndexOfChar(b);
  }

  /** The dictionary exists exactly when every joint has an index inside the table and no
      two joints share an index. */
  lemma {:induction false} KeyedDefined(js: seq<JointState>)
    ensures Keyed(js).Some? <==>
      (forall i :: 0 <= i < |js| ==> HasKey(js[i])) &&
      (forall i, k :: 0 <= i < k < |js| ==> js[i].index != js[k].index)
    decreases |js|
  {
    if |js| > 0 {
      var n := |js| - 1;
      var p := js[..n];
      KeyedDefined(p);
      assert forall i :: 0 <= i < n ==> p[i] == js[i];
      var j := js[n];
      match Keyed(p)
      case None =>
      case Some(m) =>
        if HasKey(j) {
          if NodeIdChars[j.index] in m {
            TakenKey(p, m, j);
          } else {
            FreeKey(p, m, j);
          }
        }
    }
  }

  /** A key already in the dictionary belongs to an earlier joint with the same index. */
  lemma TakenKey(p: seq<JointState>, m: map<char, JointState>, j: JointState)
    requires Keyed(p) == Some(m) && HasKey(j) && NodeIdChars[j.index] in m
    ensures exists i :: 0 <= i < |p| && p[i].index == j.index
  {
    KeyedMap(p);
    var i :| 0 <= i < |p| && HasKey(p[i]) && NodeIdChars[p[i].index] == NodeIdChars[j.index];
    TableInjective(p[i].index, j.index);
  }

  /** A key not in the dictionary belongs to no earlier joint. */
  lemma FreeKey(p: seq<JointState>, m: map<char, JointState>, j: JointState)
    requires Keyed(p) == Some(m) && HasKey(j) && NodeIdChars[j.index] !in m
    ensures forall i :: 0 <= i < |p| ==> p[i].index != j.index
  {
    KeyedMap(p);
  }

  /** A dictionary that exists holds every joint under its identifier character, and nothing
      else. */
  lemma {:induction false} KeyedMap(js: seq<JointState>)
    ensures Keyed(js).Some? ==>
      (forall i :: 0 <= i < |js| ==> HasKey(js[i]) && NodeIdChars[js[i].index] in Keyed(js).value &&
                                     Keyed(js).value[NodeIdChars[js[i].index]] == js[i]) &&
      (forall c :: c in Keyed(js).value ==> exists i :: 0 <= i < |js| && HasKey(js[i]) && NodeIdChars[js[i].index] == c)
    decreases |js|
  {
    if |js| > 0 {
      var n := |js| - 1;
      var p := js[..n];
      KeyedMap(p);
      assert forall i :: 0 <= i < n ==> p[i] == js[i];
      var j := js[n];
      match Keyed(p)
      case None =>
      case Some(m) =>
        if HasKey(j) && NodeIdChars[j.index] !in m {
          var c := NodeIdChars[j.index];
          assert Keyed(js).value == m[c := j];
          forall i | 0 <= i < |js|
            ensures HasKey(js[i]) && NodeIdChars[js[i].index] in m[c := j] && m[c := j][NodeIdChars[js[i].index]] == js[i]
          {
            if i < n {
              assert NodeIdChars[p[i].index] in m;
            }
          }
        }
    }
  }

  /** The node dictionary of a design exists exactly when the tokens decode to distinct
      indices inside the table, and then maps each token's identifier to its decoded joint. */
  lemma NodeTableContents(tokens: seq<string>)
    ensures NodeTable(tokens).Some? <==>
      (forall i :: 0 <= i < |tokens| ==> HasKey(Decoded(tokens[i]))) &&
      (forall i, k :: 0 <= i < k < |tokens| ==> Decoded(tokens[i]).index != Decoded(tokens[k]).index)
    ensures NodeTable(tokens).Some? ==>
      forall i :: 0 <= i < |tokens| ==> NodeIdChars[Decoded(tokens[i]).index] in NodeTable(tokens).value &&
                                         NodeTable(tokens).value[NodeIdChars[Decoded(tokens[i]).index]] == Decoded(tokens[i])
  {
    KeyedDefined(DecodedAll(tokens));
    KeyedMap(DecodedAll(tokens));
  }

  // ---------------------------------------------------------------- filing edges by destination

  /** An edge token's destination index, getNodeIndexByChar(edgetoken[1]). */
  function Dest(t: string): int
    requires |t| >= 2
  {
    NodeIndex(t[1])
  }

  /** Reading edgetoken[1] and edgetoken[0] throws on a token shorter than two characters. */
  predicate Readable(edges: seq<string>) {
    forall i :: 0 <= i < |edges| ==> |edges[i]| >= 2
  }

  function Dests(edges: seq<string>): (ds: seq<int>)
    requires Readable(edges)
    ensures |ds| == |edges| && forall i :: 0 <= i < |edges| ==> ds[i] == Dest(edges[i])
  {
    seq(|edges|, i requires 0 <= i < |edges| && Readable(edges) => Dest(edges[i]))
  }

  /** sortedEdgeConnectionSteps, edgesEndAtExistingComponent and maxConnectionStepIndex. */
  datatype Buckets = Buckets(steps: map<int, string>, overflow: seq<string>, maxKey: int)

  /** One pass of the filing loop on token t with destination d: a new destination files the
      token under it, a repeated one appends it to the overflow list; the running maximum
      includes d. */
  function File(b: Buckets, t: string, d: int): Buckets {
    var b1 := if d !in b.steps then b.(steps := b.steps[d := t]) else b.(overflow := b.overflow + [t]);
    b1.(maxKey := MaxInt(b.maxKey, d))
  }

  /** The filing loop over tokens with destinations ds, the maximum starting at 0. */
  function Filed(edges: seq<string>, ds: seq<int>): Buckets
    requires |ds| == |edges|
    decreases |edges|
  {
    if |edges| == 0 then Buckets(map[], [], 0)
    else
      var n := |edges| - 1;
      File(Filed(edges[..n], ds[..n]), edges[n], ds[n])
  }

  /** The filing loop; it throws as soon as it meets a token shorter than two characters,
      which abandons the parse whatever it had filed. */
  function Bucket(edges: seq<string>): Option<Buckets> {
    if Readable(edges) then Some(Filed(edges, Dests(edges))) else Option.None
  }

  /** The overflow loop: each deferred token takes the next key past the running maximum. */
  function Defer(steps: map<int, string>, overflow: seq<string>, maxKey: int): (map<int, string>, int)
    decreases |overflow|
  {
    if |overflow| == 0 then (steps, maxKey)
    else
      var (s, m) := Defer(steps, overflow[..|overflow| - 1], maxKey);
      (s[m + 1 := overflow[|overflow| - 1]], m + 1)
  }

  /** The assembly steps and the last key to replay. */
  function Sequence(edges: seq<string>): Option<(map<int, string>, int)> {
    match Bucket(edges)
    case None => Option.None
    case Some(b) => Some(Defer(b.steps, b.overflow, b.maxKey))
  }

  /** The two loops of fromstring that build the assembly sequence. */
  method SequenceEdges(edges: seq<string>) returns (r: Option<(map<int, string>, int)>)
    ensures r == Sequence(edges)
  {
    var b := FileEdges(edges);
    if b.None? {
      return Option.None;
    }
    var steps, maxKey := DeferOverflow(b.value.steps, b.value.overflow, b.value.maxKey);
    r := Some((steps, maxKey));
  }

  /** The filing loop. */
  method FileEdges(edges: seq<string>) returns (r: Option<Buckets>)
    ensures r == Bucket(edges)
  {
    var steps: map<int, string> := map[];
    var overflow: seq<string> := [];
    var maxKey := 0;
    var i := 0;
    while i < |edges|
      invariant 0 <= i <= |edges|
      invariant Readable(edges[..i])
      invariant Filed(edges[..i], Dests(edges[..i])) == Buckets(steps, overflow, maxKey)
    {
      var t := edges[i];
      if |t| < 2 {
        return Option.None;
      }
      var second := GetNodeIndexByChar(t[1]);
      var first := GetNodeIndexByChar(t[0]);
      FiledStep(edges, i);
      if second !in steps {
        steps := steps[second := t];
      } else {
        overflow := overflow + [t];
      }
      maxKey := MaxInt(maxKey, second);
      i := i + 1;
    }
    assert edges[..i] == edges;
    r := Some(Buckets(steps, overflow, maxKey));
  }

  /** One pass of the filing loop on a readable token files it by its destination. */
  lemma FiledStep(edges: seq<string>, i: int)
    requires 0 <= i < |edges| && Readable(edges[..i]) && |edges[i]| >= 2
    ensures Readable(edges[..i + 1])
    ensures Filed(edges[..i + 1], Dests(edges[..i + 1])) == File(Filed(edges[..i], Dests(edges[..i])), edges[i], Dest(edges[i]))
  {
    var e := edges[..i + 1];
    assert e[..i] == edges[..i];
    assert Readable(e);
    assert Dests(e)[..i] == Dests(edges[..i]);
  }

  /** The overflow loop. */
  method DeferOverflow(filed: map<int, string>, overflow: seq<string>, top: int)
    returns (steps: map<int, string>, maxKey: int)
    ensures (steps, maxKey) == Defer(filed, overflow, top)
  {
    steps, maxKey := filed, top;
    var k := 0;
    while k < |overflow|
      invariant 0 <= k <= |overflow|
      invariant Defer(filed, overflow[..k], top) == (steps, maxKey)
    {
      assert overflow[..k + 1][..k] == overflow[..k];
      maxKey := maxKey + 1;
      steps := steps[maxKey := overflow[k]];
      k := k + 1;
    }
    assert overflow[..k] == overflow;
  }

  // ---------------------------------------------------------------- the sequence, characterised

  /** Edge i ends where an earlier edge already ended: it closes a cycle. */
  predicate Repeat(ds: seq<int>, i: int)
    requires 0 <= i < |ds|
  {
    exists j :: 0 <= j < i && ds[j] == ds[i]
  }

  /** The cycle edges, in encounter order. */
  function Repeats(edges: seq<string>, ds: seq<int>): (r: seq<string>)
    requires |ds| == |edges|
    ensures |r| == RepeatCount(ds)
    decreases |edges|
  {
    if |edges| == 0 then []
    else
      var n := |edges| - 1;
      Repeats(edges[..n], ds[..n]) + (if Repeat(ds, n) then [edges[n]] else [])
  }

  /** The number of cycle edges among the first n. */
  function RepeatCount(ds: seq<int>): nat
    decreases |ds|
  {
    if |ds| == 0 then 0 else RepeatCount(ds[..|ds| - 1]) + (if Repeat(ds, |ds| - 1) then 1 else 0)
  }

  /** The largest destination index, or 0 when it is smaller. */
  function MaxDest(ds: seq<int>): (m: int)
    ensures m >= 0 && forall i :: 0 <= i < |ds| ==> ds[i] <= m
    decreases |ds|
  {
    if |ds| == 0 then 0 else MaxInt(MaxDest(ds[..|ds| - 1]), ds[|ds| - 1])
  }

  /** The key edge i is filed under: its destination for the first edge reaching it, else the
      next key past the largest destination, counting the cycle edges before it. */
  function KeyOf(ds: seq<int>, i: int): int
    requires 0 <= i < |ds|
  {
    if Repeat(ds, i) then MaxDest(ds) + 1 + RepeatCount(ds[..i]) else ds[i]
  }

  lemma PrefixRepeat(ds: seq<int>, n: int)
    requires 0 <= n <= |ds|
    ensures forall i :: 0 <= i < n ==> (Repeat(ds[..n], i) <==> Repeat(ds, i))
  {
    forall i | 0 <= i < n
      ensures Repeat(ds[..n], i) <==> Repeat(ds, i)
    {
      if Repeat(ds, i) {
        var j :| 0 <= j < i && ds[j] == ds[i];
        assert ds[..n][j] == ds[j];
      }
    }
  }

  /** The filing loop files a token under every destination index it meets and under no
      other key, and ends with the largest destination. */
  lemma {:induction false} FiledKeys(edges: seq<string>, ds: seq<int>)
    requires |ds| == |edges|
    ensures Filed(edges, ds).maxKey == MaxDest(ds)
    ensures forall d :: d in Filed(edges, ds).steps <==> d in ds
    decreases |edges|
  {
    if |edges| > 0 {
      var n := |edges| - 1;
      FiledKeys(edges[..n], ds[..n]);
      assert ds == ds[..n] + [ds[n]];
    }
  }

  /** A token is deferred exactly when its destination was met before. */
  lemma RepeatIsFiled(edges: seq<string>, ds: seq<int>, n: int)
    requires |ds| == |edges| && 0 <= n < |edges|
    ensures Repeat(ds, n) <==> ds[n] in Filed(edges[..n], ds[..n]).steps
  {
    FiledKeys(edges[..n], ds[..n]);
    if ds[n] in ds[..n] {
      var j :| 0 <= j < n && ds[..n][j] == ds[n];
      assert ds[j] == ds[n];
    }
    if Repeat(ds, n) {
      var j :| 0 <= j < n && ds[j] == ds[n];
      assert ds[..n][j] == ds[n];
    }
  }

  /** The overflow list holds the cycle edges in encounter order. */
  lemma {:induction false} FiledOverflow(edges: seq<string>, ds: seq<int>)
    requires |ds| == |edges|
    ensures Filed(edges, ds).overflow == Repeats(edges, ds)
    decreases |edges|
  {
    if |edges| > 0 {
      var n := |edges| - 1;
      FiledOverflow(edges[..n], ds[..n]);
      RepeatIsFiled(edges, ds, n);
    }
  }

  /** The first edge reaching a destination is the one filed under it. */
  lemma {:induction false} FiledFirst(edges: seq<string>, ds: seq<int>)
    requires |ds| == |edges|
    ensures forall i :: 0 <= i < |edges| && !Repeat(ds, i) ==> ds[i] in Filed(edges, ds).steps && Filed(edges, ds).steps[ds[i]] == edges[i]
    decreases |edges|
  {
    if |edges| > 0 {
      var n := |edges| - 1;
      var p := edges[..n];
      var q := ds[..n];
      FiledFirst(p, q);
      RepeatIsFiled(edges, ds, n);
      PrefixRepeat(ds, n);
      var b := Filed(p, q);
      var b2 := Filed(edges, ds);
      assert b2 == File(b, edges[n], ds[n]);
      FileKeeps(b, edges[n], ds[n]);
      forall i | 0 <= i < |edges| && !Repeat(ds, i)
        ensures ds[i] in b2.steps && b2.steps[ds[i]] == edges[i]
      {
        if i < n {
          assert !Repeat(q, i) && q[i] == ds[i] && p[i] == edges[i];
          assert ds[i] in b.steps && b.steps[ds[i]] == edges[i];
        }
      }
    }
  }

  /** Filing a token keeps every key already filed and files an unmet destination. */
  lemma FileKeeps(b: Buckets, t: string, d: int)
    ensures forall k :: k in b.steps ==> k in File(b, t, d).steps && File(b, t, d).steps[k] == b.steps[k]
    ensures d !in b.steps ==> d in File(b, t, d).steps && File(b, t, d).steps[d] == t
  {
  }

  /** The overflow loop keeps every filed key and adds keys M+1 .. M+k for the k deferred
      tokens in order, when every filed key is at most M. */
  lemma {:induction false} DeferContents(steps: map<int, string>, overflow: seq<string>, maxKey: int)
    requires forall k :: k in steps ==> k <= maxKey
    ensures Defer(steps, overflow, maxKey).1 == maxKey + |overflow|
    ensures forall k :: k in Defer(steps, overflow, maxKey).0 <==> k in steps || maxKey < k <= maxKey + |overflow|
    ensures forall k :: k in steps ==> Defer(steps, overflow, maxKey).0[k] == steps[k]
    ensures forall r :: 0 <= r < |overflow| ==> Defer(steps, overflow, maxKey).0[maxKey + 1 + r] == overflow[r]
    decreases |overflow|
  {
    if |overflow| > 0 {
      var n := |overflow| - 1;
      DeferContents(steps, overflow[..n], maxKey);
      assert forall r :: 0 <= r < n ==> overflow[..n][r] == overflow[r];
    }
  }

  lemma {:induction false} RepeatsPrefix(edges: seq<string>, ds: seq<int>, n: int)
    requires |ds| == |edges| && 0 <= n <= |edges|
    ensures RepeatCount(ds[..n]) <= RepeatCount(ds)
    ensures Repeats(edges, ds)[..RepeatCount(ds[..n])] == Repeats(edges[..n], ds[..n])
    decreases |edges| - n
  {
    if n == |edges| {
      assert edges[..n] == edges && ds[..n] == ds;
    } else {
      RepeatsPrefix(edges, ds, n + 1);
      var e := edges[..n + 1];
      var q := ds[..n + 1];
      assert e[..n] == edges[..n] && q[..n] == ds[..n];
      var k := RepeatCount(ds[..n]);
      var k1 := RepeatCount(q);
      var before := Repeats(edges[..n], ds[..n]);
      assert Repeats(e, q) == before + (if Repeat(q, n) then [e[n]] else []);
      assert k <= k1 && k == |before|;
      var all := Repeats(edges, ds);
      assert all[..k] == all[..k1][..k];
      assert (before + (if Repeat(q, n) then [e[n]] else []))[..k] == before;
    }
  }

  /** The cycle edge i sits in the overflow list after the cycle edges before it. */
  lemma RepeatsAt(edges: seq<string>, ds: seq<int>, i: int)
    requires |ds| == |edges| && 0 <= i < |edges| && Repeat(ds, i)
    ensures RepeatCount(ds[..i]) < |Repeats(edges, ds)|
    ensures Repeats(edges, ds)[RepeatCount(ds[..i])] == edges[i]
  {
    RepeatsPrefix(edges, ds, i + 1);
    var e := edges[..i + 1];
    var q := ds[..i + 1];
    PrefixRepeat(ds, i + 1);
    assert e[..i] == edges[..i] && q[..i] == ds[..i];
    assert Repeat(q, i);
    assert Repeats(e, q) == Repeats(e[..i], q[..i]) + [edges[i]];
  }

  /** Every overflow position belongs to some cycle edge. */
  lemma {:induction false} RepeatsIndex(ds: seq<int>, r: int)
    requires 0 <= r < RepeatCount(ds)
    ensures exists i :: 0 <= i < |ds| && Repeat(ds, i) && RepeatCount(ds[..i]) == r
    decreases |ds|
  {
    var n := |ds| - 1;
    var p := ds[..n];
    PrefixRepeat(ds, n);
    if r < RepeatCount(p) {
      RepeatsIndex(p, r);
      var i :| 0 <= i < |p| && Repeat(p, i) && RepeatCount(p[..i]) == r;
      assert p[..i] == ds[..i];
    } else {
      assert Repeat(ds, n) && r == RepeatCount(p);
    }
  }

  /** Among the edges reaching a destination, the first one is not a cycle edge. */
  lemma {:induction false} FirstToReach(ds: seq<int>, i: int)
    requires 0 <= i < |ds|
    ensures exists k :: 0 <= k <= i && !Repeat(ds, k) && ds[k] == ds[i]
    decreases i
  {
    if Repeat(ds, i) {
      var j :| 0 <= j < i && ds[j] == ds[i];
      FirstToReach(ds, j);
    }
  }

  lemma {:induction false} RepeatsMonotone(ds: seq<int>, i: int, j: int)
    requires 0 <= i < j <= |ds| && Repeat(ds, i)
    ensures RepeatCount(ds[..i]) < RepeatCount(ds[..j])
    decreases j - i
  {
    var q := ds[..j];
    PrefixRepeat(ds, j);
    assert q[..j - 1] == ds[..j - 1];
    if j == i + 1 {
      assert Repeat(q, i);
    } else {
      RepeatsMonotone(ds, i, j - 1);
    }
  }

  /** The keys the filing loop used are at most its maximum. */
  lemma FiledBelowMax(edges: seq<string>, ds: seq<int>)
    requires |ds| == |edges|
    ensures forall k :: k in Filed(edges, ds).steps ==> k <= Filed(edges, ds).maxKey
  {
    FiledKeys(edges, ds);
    forall k | k in Filed(edges, ds).steps ensures k <= Filed(edges, ds).maxKey {
      var j :| 0 <= j < |ds| && ds[j] == k;
    }
  }

  /** A cycle edge is stored under its overflow key. */
  lemma DeferredKey(edges: seq<string>, ds: seq<int>, i: int)
    requires |ds| == |edges| && 0 <= i < |edges| && Repeat(ds, i)
    ensures var b := Filed(edges, ds);
      KeyOf(ds, i) in Defer(b.steps, b.overflow, b.maxKey).0 &&
      Defer(b.steps, b.overflow, b.maxKey).0[KeyOf(ds, i)] == edges[i]
  {
    var b := Filed(edges, ds);
    var s := Defer(b.steps, b.overflow, b.maxKey).0;
    var r := RepeatCount(ds[..i]);
    assert 0 <= r < |b.overflow| && b.overflow[r] == edges[i] by {
      FiledOverflow(edges, ds);
      RepeatsAt(edges, ds, i);
    }
    FiledBelowMax(edges, ds);
    DeferAt(b.steps, b.overflow, b.maxKey, r);
    FiledKeys(edges, ds);
    assert KeyOf(ds, i) == b.maxKey + 1 + r;
  }

  /** The deferred token at overflow position r is stored under the key r + 1 past the maximum. */
  lemma DeferAt(steps: map<int, string>, overflow: seq<string>, maxKey: int, r: int)
    requires forall k :: k in steps ==> k <= maxKey
    requires 0 <= r < |overflow|
    ensures maxKey + 1 + r in Defer(steps, overflow, maxKey).0
    ensures Defer(steps, overflow, maxKey).0[maxKey + 1 + r] == overflow[r]
  {
    DeferContents(steps, overflow, maxKey);
  }

  /** The first edge reaching a destination is stored under that destination. */
  lemma PrimaryKey(edges: seq<string>, ds: seq<int>, i: int)
    requires |ds| == |edges| && 0 <= i < |edges| && !Repeat(ds, i)
    ensures var b := Filed(edges, ds);
      KeyOf(ds, i) in Defer(b.steps, b.overflow, b.maxKey).0 &&
      Defer(b.steps, b.overflow, b.maxKey).0[KeyOf(ds, i)] == edges[i]
  {
    FiledFirst(edges, ds);
    FiledBelowMax(edges, ds);
    var b := Filed(edges, ds);
    DeferContents(b.steps, b.overflow, b.maxKey);
    assert KeyOf(ds, i) == ds[i];
  }

  lemma KeysDiffer(ds: seq<int>, i: int, j: int)
    requires 0 <= i < j < |ds|
    ensures KeyOf(ds, i) != KeyOf(ds, j)
  {
    if Repeat(ds, i) && Repeat(ds, j) {
      RepeatsMonotone(ds, i, j);
    } else if !Repeat(ds, i) && !Repeat(ds, j) {
      assert ds[i] != ds[j];
    }
  }

  /** The filing loop runs to the end exactly when every edge token has two characters. */
  lemma SequenceDefined(edges: seq<string>)
    ensures Sequence(edges).Some? <==> Readable(edges)
  {
  }

  /** Every edge token is stored, under KeyOf. */
  lemma SequenceStoresEveryEdge(edges: seq<string>, i: int)
    requires Readable(edges) && 0 <= i < |edges|
    ensures KeyOf(Dests(edges), i) in Sequence(edges).value.0
    ensures Sequence(edges).value.0[KeyOf(Dests(edges), i)] == edges[i]
  {
    if Repeat(Dests(edges), i) {
      DeferredKey(edges, Dests(edges), i);
    } else {
      PrimaryKey(edges, Dests(edges), i);
    }
  }

  /** Distinct edge tokens get distinct keys, so none is stored twice or overwritten. */
  lemma SequenceKeysDistinct(ds: seq<int>, i: int, j: int)
    requires 0 <= i < |ds| && 0 <= j < |ds| && i != j
    ensures KeyOf(ds, i) != KeyOf(ds, j)
  {
    if i < j {
      KeysDiffer(ds, i, j);
    } else {
      KeysDiffer(ds, j, i);
    }
  }

  /** No key holds anything but an edge token filed under it. */
  lemma SequenceKeysUsed(edges: seq<string>, k: int)
    requires Readable(edges) && k in Sequence(edges).value.0
    ensures exists i :: 0 <= i < |edges| && KeyOf(Dests(edges), i) == k
  {
    var ds := Dests(edges);
    FiledKeys(edges, ds);
    FiledOverflow(edges, ds);
    FiledBelowMax(edges, ds);
    var b := Filed(edges, ds);
    DeferContents(b.steps, b.overflow, b.maxKey);
    assert Sequence(edges).value.0 == Defer(b.steps, b.overflow, b.maxKey).0;
    if k in b.steps {
      var i :| 0 <= i < |ds| && ds[i] == k;
      FirstToReach(ds, i);
      var f :| 0 <= f <= i && !Repeat(ds, f) && ds[f] == ds[i];
      assert KeyOf(ds, f) == k;
    } else {
      var r := k - b.maxKey - 1;
      assert 0 <= r < RepeatCount(ds);
      RepeatsIndex(ds, r);
      var i :| 0 <= i < |ds| && Repeat(ds, i) && RepeatCount(ds[..i]) == r;
      assert KeyOf(ds, i) == k;
    }
  }

  /** Cycle edges are keyed strictly above every destination index the design names, and the
      last key to replay is the largest destination plus the number of cycle edges. */
  lemma SequenceDeferredAbove(edges: seq<string>)
    requires Readable(edges)
    ensures forall i, j :: 0 <= i < |edges| && 0 <= j < |edges| && Repeat(Dests(edges), i) ==>
      Dests(edges)[j] < KeyOf(Dests(edges), i)
    ensures Sequence(edges).value.1 == MaxDest(Dests(edges)) + RepeatCount(Dests(edges))
  {
    var ds := Dests(edges);
    FiledKeys(edges, ds);
    FiledOverflow(edges, ds);
    FiledBelowMax(edges, ds);
    var b := Filed(edges, ds);
    DeferContents(b.steps, b.overflow, b.maxKey);
  }

  // ---------------------------------------------------------------- direction of an edge

  /** The connector handles of a joint: posx, negx, posz, negz. */
  datatype Direction = PosX | NegX | PosZ | NegZ

  /** The grid step a connector in direction d spans. */
  function Step(d: Direction): (int, int) {
    match d
    case PosX => (1, 0)
    case NegX => (-1, 0)
    case PosZ => (0, 1)
    case NegZ => (0, -1)
  }

  /** The direction chosen from the difference start - end; any other difference places no
      connector. */
  function DirectionOf(xs: int, zs: int, xe: int, ze: int): Option<Direction> {
    if xs - xe == -1 && zs - ze == 0 then Some(PosX)
    else if xs - xe == 1 && zs - ze == 0 then Some(NegX)
    else if xs - xe == 0 && zs - ze == -1 then Some(PosZ)
    else if xs - xe == 0 && zs - ze == 1 then Some(NegZ)
    else Option.None
  }

  /** A direction is chosen exactly when the end lies one grid step from the start, and the
      chosen handle spans exactly that step. */
  lemma DirectionOfStep(xs: int, zs: int, xe: int, ze: int)
    ensures DirectionOf(xs, zs, xe, ze).Some? <==> AbsInt(xe - xs) + AbsInt(ze - zs) == 1
    ensures forall d :: DirectionOf(xs, zs, xe, ze) == Some(d) <==> (xs + Step(d).0, zs + Step(d).1) == (xe, ze)
  {
  }
}
