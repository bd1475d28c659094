/** The designer's assembly: the joint and connector graphs that UAVDesigner edits, the
    operations that grow them, the replay of a design string onto them and the sizing loop. */
module Designer {
  import opened Basics
  import opened Joints
  import opened Connectors
  import opened DesignTokens
  import opened AssemblySequence

  /** The designer's state as a value: the joints of jointGraph in insertion order, the hidden
      assembly handles (a joint's position in `joints` and the handle's direction), the connector
      centres, the connectors of connectionGraph in insertion order, the JointInfo id counter and
      the payload capacity. Centres are measured in half connectors: the connector from the joint
      at grid (x, z) in direction d has its centre at (2x + dx, 2z + dz); the origin entry that
      addStartingJoint records is (0, 0). */
  datatype Assembly = Assembly(joints: seq<JointState>, inactive: set<(int, Direction)>,
                               intersections: seq<(int, int)>, connectors: seq<ConnectorInfo>,
                               counter: int, payload: int)

  /** The state after an operation that an exception can cut short: `ok` is false when it was. */
  datatype Outcome = Outcome(state: Assembly, ok: bool)

  /** The base joint addStartingJoint creates: index 0 at the origin, no component, locked. */
  const BaseJoint := JointState(0, 0, 0, ComponentType.None, 0, true, Option.None)

  /** addStartingJoint: empty graphs, the counter reset and the base joint added (taking id 0). */
  function Started(a: Assembly): Assembly {
    Assembly([BaseJoint], {}, [(0, 0)], [], 1, a.payload)
  }

  // ---------------------------------------------------------------------------------------
  // Invariants of an assembly

  predicate At(j: JointState, x: int, z: int) {
    j.x == x && j.z == z
  }

  predicate Occupied(js: seq<JointState>, x: int, z: int) {
    exists i :: 0 <= i < |js| && At(js[i], x, z)
  }

  /** No two joints share a grid position. */
  predicate UniquePositions(js: seq<JointState>) {
    forall i, m :: 0 <= i < m < |js| ==> js[i].x != js[m].x || js[i].z != js[m].z
  }

  /** Every joint id is below the counter. */
  predicate IdsBelow(js: seq<JointState>, counter: int) {
    forall i :: 0 <= i < |js| ==> js[i].index < counter
  }

  /** The invariant the designer keeps: unique positions, ids below the counter and the base
      joint first. */
  predicate Good(a: Assembly) {
    && UniquePositions(a.joints)
    && IdsBelow(a.joints, a.counter)
    && |a.joints| >= 1 && a.joints[0] == BaseJoint
  }

  lemma StartedGood(a: Assembly)
    ensures Good(Started(a))
    ensures Started(a).payload == a.payload
  {
  }

  // ---------------------------------------------------------------------------------------
  // Searches over the joint graph

  /** The index of the last joint at (x, z), or -1 when there is none: the indexa/indexb search
      of addConnector. */
  function IndexAt(js: seq<JointState>, x: int, z: int): (r: int)
    ensures !Occupied(js, x, z) ==> r == -1
    ensures Occupied(js, x, z) ==> exists i :: 0 <= i < |js| && At(js[i], x, z) && r == js[i].index
    decreases |js|
  {
    if |js| == 0 then -1
    else if At(js[|js| - 1], x, z) then js[|js| - 1].index
    else
      assert forall i :: 0 <= i < |js| - 1 ==> js[..|js| - 1][i] == js[i];
      IndexAt(js[..|js| - 1], x, z)
  }

  /** With unique positions, the search finds the joint standing at (x, z). */
  lemma IndexAtUnique(js: seq<JointState>, i: int)
    requires UniquePositions(js) && 0 <= i < |js|
    ensures IndexAt(js, js[i].x, js[i].z) == js[i].index
  {
    var r := IndexAt(js, js[i].x, js[i].z);
    assert Occupied(js, js[i].x, js[i].z);
    var m :| 0 <= m < |js| && At(js[m], js[i].x, js[i].z) && r == js[m].index;
    assert m == i;
  }

  /** The position of the last joint whose id is idx, or -1: getJointByChar after the id lookup. */
  function LastWithIndex(js: seq<JointState>, idx: int): (r: int)
    ensures -1 <= r < |js|
    ensures r >= 0 ==> js[r].index == idx
    ensures forall m :: r < m < |js| ==> js[m].index != idx
    decreases |js|
  {
    if |js| == 0 then -1
    else if js[|js| - 1].index == idx then |js| - 1
    else LastWithIndex(js[..|js| - 1], idx)
  }

  // ---------------------------------------------------------------------------------------
  // addConnector and assemble

  /** The grid position a connector from j in direction d ends at. */
  function End(j: JointState, d: Direction): (int, int) {
    (j.x + Step(d).0, j.z + Step(d).1)
  }

  /** The centre of a connector from j in direction d, in half connectors. */
  function Centre(j: JointState, d: Direction): (int, int) {
    (2 * j.x + Step(d).0, 2 * j.z + Step(d).1)
  }

  /** addConnector from the joint at position k in direction d: a joint is created at the end
      when none stands there; unless a connector already has this centre, the handle is hidden,
      the centre recorded and a connector from the joint at the start to the joint at the end
      added, flagged with whether the end joint is new. */
  function AddConnectorSpec(a: Assembly, k: int, d: Direction): Assembly
    requires 0 <= k < |a.joints|
  {
    var s := a.joints[k];
    var e := End(s, d);
    var occupied := Occupied(a.joints, e.0, e.1);
    var b := if occupied then a
             else a.(joints := a.joints + [JointState(a.counter, e.0, e.1, ComponentType.None, 0, false, Option.None)],
                     counter := a.counter + 1);
    if Centre(s, d) in b.intersections then b
    else b.(inactive := b.inactive + {(k, d)},
            intersections := b.intersections + [Centre(s, d)],
            connectors := b.connectors + [ConnectorInfo(IndexAt(b.joints, s.x, s.z), IndexAt(b.joints, e.0, e.1), !occupied)])
  }

  /** Growing the assembly keeps its invariant. */
  lemma AddConnectorKeepsGood(a: Assembly, k: int, d: Direction)
    requires 0 <= k < |a.joints| && Good(a)
    ensures Good(AddConnectorSpec(a, k, d))
  {
    var s := a.joints[k];
    var e := End(s, d);
    if !Occupied(a.joints, e.0, e.1) {
      var js := a.joints + [JointState(a.counter, e.0, e.1, ComponentType.None, 0, false, Option.None)];
      forall i, m | 0 <= i < m < |js|
        ensures js[i].x != js[m].x || js[i].z != js[m].z
      {
        if m == |js| - 1 {
          assert !At(a.joints[i], e.0, e.1);
        }
      }
    }
  }

  /** The joint graph after addConnector: unchanged when a joint stands at the end, otherwise
      one new unlocked joint there taking the counter as its id; either way a joint now stands
      at the end. */
  lemma AddConnectorJoints(a: Assembly, k: int, d: Direction)
    requires 0 <= k < |a.joints|
    ensures var r := AddConnectorSpec(a, k, d); var e := End(a.joints[k], d);
      && (Occupied(a.joints, e.0, e.1) ==> r.joints == a.joints && r.counter == a.counter)
      && (!Occupied(a.joints, e.0, e.1) ==>
            r.joints == a.joints + [JointState(a.counter, e.0, e.1, ComponentType.None, 0, false, Option.None)]
            && r.counter == a.counter + 1)
      && Occupied(r.joints, e.0, e.1)
      && r.payload == a.payload
  {
    var r := AddConnectorSpec(a, k, d);
    var e := End(a.joints[k], d);
    if !Occupied(a.joints, e.0, e.1) {
      assert At(r.joints[|a.joints|], e.0, e.1);
    }
  }

  /** The connector addConnector records: none when the centre is already taken; otherwise its
      ends are the ids of the joint at the start and of the joint at the end, and it is flagged
      as adding a component exactly when the end joint is new. */
  lemma AddConnectorRecords(a: Assembly, k: int, d: Direction)
    requires 0 <= k < |a.joints| && Good(a)
    ensures var r := AddConnectorSpec(a, k, d); var s := a.joints[k]; var e := End(s, d);
      && (Centre(s, d) in a.intersections ==>
            r.connectors == a.connectors && r.inactive == a.inactive && r.intersections == a.intersections)
      && (Centre(s, d) !in a.intersections ==>
            && |r.connectors| == |a.connectors| + 1
            && r.connectors[..|a.connectors|] == a.connectors
            && r.connectors[|a.connectors|].x1 == s.index
            && r.connectors[|a.connectors|].addedComponent == !Occupied(a.joints, e.0, e.1)
            && (!Occupied(a.joints, e.0, e.1) ==> r.connectors[|a.connectors|].x2 == a.counter)
            && r.inactive == a.inactive + {(k, d)}
            && r.intersections == a.intersections + [Centre(s, d)])
  {
    var s := a.joints[k];
    var e := End(s, d);
    var r := AddConnectorSpec(a, k, d);
    AddConnectorKeepsGood(a, k, d);
    AddConnectorJoints(a, k, d);
    if Centre(s, d) !in a.intersections {
      assert r.joints[k] == s;
      IndexAtUnique(r.joints, k);
      if !Occupied(a.joints, e.0, e.1) {
        IndexAtUnique(r.joints, |a.joints|);
      }
    }
  }

  /** When a joint already stands at the end, the connector closes onto it. */
  lemma AddConnectorCloses(a: Assembly, k: int, d: Direction, m: int)
    requires 0 <= k < |a.joints| && Good(a) && 0 <= m < |a.joints|
    requires End(a.joints[k], d) == (a.joints[m].x, a.joints[m].z)
    requires Centre(a.joints[k], d) !in a.intersections
    ensures var r := AddConnectorSpec(a, k, d);
      && r.joints == a.joints
      && r.connectors == a.connectors + [ConnectorInfo(a.joints[k].index, a.joints[m].index, false)]
  {
    assert At(a.joints[m], a.joints[m].x, a.joints[m].z);
    IndexAtUnique(a.joints, k);
    IndexAtUnique(a.joints, m);
  }

  /** assemble: the handle in direction d of the joint named c is clicked, provided that joint
      exists and the handle is still shown. */
  function AssembleSpec(a: Assembly, c: char, d: Direction): Assembly {
    var k := LastWithIndex(a.joints, NodeIndex(c));
    if k >= 0 && (k, d) !in a.inactive then AddConnectorSpec(a, k, d) else a
  }

  lemma AssembleKeepsGood(a: Assembly, c: char, d: Direction)
    requires Good(a)
    ensures Good(AssembleSpec(a, c, d))
  {
    var k := LastWithIndex(a.joints, NodeIndex(c));
    if k >= 0 && (k, d) !in a.inactive {
      AddConnectorKeepsGood(a, k, d);
    }
  }

  // ---------------------------------------------------------------------------------------
  // Reconciling joint ids with the design string

  /** A joint the reconciliation pass acts on: at the connector's end and not yet locked. */
  predicate Target(j: JointState, xe: int, ze: int) {
    j.x == xe && j.z == ze && !j.locked
  }

  /** A target whose id names a character other than ch (the source compares the id's character
      with ch; by NodeCharMatches that is comparing the id with ch's id). */
  predicate Renames(j: JointState, xe: int, ze: int, ch: char) {
    Target(j, xe, ze) && HasKey(j) && NodeIndex(ch) != j.index
  }

  datatype Reconciliation = Reconciliation(joints: seq<JointState>, counter: int, ok: bool)

  /** The reconciliation pass after a replayed connector, over the joints in order: each target
      takes the id of ch (raising the counter past it) and is locked; a target whose id has no
      identifier character raises IndexOutOfRangeException, which leaves it and every later joint
      as they are. */
  function ReconcileAll(js: seq<JointState>, xe: int, ze: int, ch: char, counter: int): (r: Reconciliation)
    ensures |r.joints| == |js|
    decreases |js|
  {
    if |js| == 0 then Reconciliation([], counter, true)
    else ReconcileNext(ReconcileAll(js[..|js| - 1], xe, ze, ch, counter), js[|js| - 1], xe, ze, ch)
  }

  /** The pass over one more joint j. */
  function ReconcileNext(p: Reconciliation, j: JointState, xe: int, ze: int, ch: char): (r: Reconciliation)
    ensures |r.joints| == |p.joints| + 1 && r.joints[..|p.joints|] == p.joints
    ensures var last := r.joints[|p.joints|]; last.x == j.x && last.z == j.z && (j.locked ==> last == j)
  {
    if !p.ok || !Target(j, xe, ze) then p.(joints := p.joints + [j])
    else if !HasKey(j) then Reconciliation(p.joints + [j], p.counter, false)
    else if NodeIndex(ch) != j.index then
      Reconciliation(p.joints + [j.(index := NodeIndex(ch), locked := true)], MaxInt(NodeIndex(ch) + 1, p.counter), true)
    else Reconciliation(p.joints + [j.(locked := true)], p.counter, true)
  }

  /** The pass succeeds exactly when every target's id has an identifier character. */
  lemma {:induction false} ReconcileSucceeds(js: seq<JointState>, xe: int, ze: int, ch: char, counter: int)
    ensures ReconcileAll(js, xe, ze, ch, counter).ok <==> forall i :: 0 <= i < |js| && Target(js[i], xe, ze) ==> HasKey(js[i])
    decreases |js|
  {
    if |js| > 0 {
      var n := |js| - 1;
      ReconcileSucceeds(js[..n], xe, ze, ch, counter);
      assert forall i :: 0 <= i < n ==> js[..n][i] == js[i];
    }
  }

  /** After a successful pass every target carries the id of ch and is locked, and every other
      joint is unchanged. */
  lemma {:induction false} ReconcileTargets(js: seq<JointState>, xe: int, ze: int, ch: char, counter: int, i: int)
    requires ReconcileAll(js, xe, ze, ch, counter).ok && 0 <= i < |js|
    ensures var r := ReconcileAll(js, xe, ze, ch, counter).joints;
      && (Target(js[i], xe, ze) ==> r[i] == js[i].(index := NodeIndex(ch), locked := true))
      && (!Target(js[i], xe, ze) ==> r[i] == js[i])
    decreases |js|
  {
    var n := |js| - 1;
    var p := ReconcileAll(js[..n], xe, ze, ch, counter);
    if i < n {
      assert p.ok;
      ReconcileTargets(js[..n], xe, ze, ch, counter, i);
    } else if Target(js[i], xe, ze) {
      assert HasKey(js[i]);
    }
  }

  /** After a successful pass the counter is raised past the id of ch exactly when some target
      was renamed. */
  lemma {:induction false} ReconcileCounter(js: seq<JointState>, xe: int, ze: int, ch: char, counter: int)
    requires ReconcileAll(js, xe, ze, ch, counter).ok
    ensures ReconcileAll(js, xe, ze, ch, counter).counter ==
      if exists i :: 0 <= i < |js| && Renames(js[i], xe, ze, ch) then MaxInt(NodeIndex(ch) + 1, counter) else counter
    decreases |js|
  {
    if |js| > 0 {
      var n := |js| - 1;
      var p := ReconcileAll(js[..n], xe, ze, ch, counter);
      assert ReconcileAll(js, xe, ze, ch, counter) == ReconcileNext(p, js[n], xe, ze, ch);
      assert p.ok;
      assert forall i :: 0 <= i < n ==> js[..n][i] == js[i];
      ReconcileCounter(js[..n], xe, ze, ch, counter);
      var earlier := exists i :: 0 <= i < n && Renames(js[i], xe, ze, ch);
      if exists i :: 0 <= i < n && Renames(js[..n][i], xe, ze, ch) {
        var i :| 0 <= i < n && Renames(js[..n][i], xe, ze, ch);
        assert Renames(js[i], xe, ze, ch);
      }
      assert p.counter == if earlier then MaxInt(NodeIndex(ch) + 1, counter) else counter;
    }
  }

  /** Whatever happens, the pass moves no joint and leaves locked joints alone. */
  lemma {:induction false} ReconcileKeepsPlaces(js: seq<JointState>, xe: int, ze: int, ch: char, counter: int)
    ensures var r := ReconcileAll(js, xe, ze, ch, counter);
      && (forall i :: 0 <= i < |js| ==> r.joints[i].x == js[i].x && r.joints[i].z == js[i].z)
      && (forall i :: 0 <= i < |js| && js[i].locked ==> r.joints[i] == js[i])
    decreases |js|
  {
    if |js| > 0 {
      var n := |js| - 1;
      var p := ReconcileAll(js[..n], xe, ze, ch, counter);
      var r := ReconcileAll(js, xe, ze, ch, counter);
      ReconcileKeepsPlaces(js[..n], xe, ze, ch, counter);
      assert r == ReconcileNext(p, js[n], xe, ze, ch);
      forall i | 0 <= i < |js|
        ensures r.joints[i].x == js[i].x && r.joints[i].z == js[i].z
        ensures js[i].locked ==> r.joints[i] == js[i]
      {
        if i < n {
          assert r.joints[i] == r.joints[..n][i] == p.joints[i];
          assert js[i] == js[..n][i];
        }
      }
    }
  }

  /** Whatever happens, the pass never lowers the counter and keeps every id below it. */
  lemma {:induction false} ReconcileKeepsIds(js: seq<JointState>, xe: int, ze: int, ch: char, counter: int)
    ensures var r := ReconcileAll(js, xe, ze, ch, counter);
      && r.counter >= counter
      && (IdsBelow(js, counter) ==> IdsBelow(r.joints, r.counter))
    decreases |js|
  {
    if |js| > 0 {
      var n := |js| - 1;
      assert forall i :: 0 <= i < n ==> js[..n][i] == js[i];
      ReconcileKeepsIds(js[..n], xe, ze, ch, counter);
    }
  }

  /** Once the pass has failed on a prefix, the rest of the joints pass through unchanged. */
  lemma {:induction false} ReconcileAbandoned(js: seq<JointState>, n: nat, xe: int, ze: int, ch: char, counter: int)
    requires n <= |js| && !ReconcileAll(js[..n], xe, ze, ch, counter).ok
    ensures var p := ReconcileAll(js[..n], xe, ze, ch, counter);
      ReconcileAll(js, xe, ze, ch, counter) == Reconciliation(p.joints + js[n..], p.counter, false)
    decreases |js|
  {
    var q := ReconcileAll(js[..n], xe, ze, ch, counter);
    if n < |js| {
      var m := |js| - 1;
      assert js[..m][..n] == js[..n];
      ReconcileAbandoned(js[..m], n, xe, ze, ch, counter);
      var r := ReconcileAll(js[..m], xe, ze, ch, counter);
      AbandonedStep(r, js[m], xe, ze, ch);
      AppendTail(q.joints, js, n);
    } else {
      assert js[..n] == js;
      assert q.joints + js[n..] == q.joints;
    }
  }

  /** Once abandoned, the pass copies the next joint unchanged. */
  lemma AbandonedStep(p: Reconciliation, j: JointState, xe: int, ze: int, ch: char)
    requires !p.ok
    ensures ReconcileNext(p, j, xe, ze, ch) == Reconciliation(p.joints + [j], p.counter, false)
  {
  }

  lemma AppendTail(a: seq<JointState>, js: seq<JointState>, n: nat)
    requires n < |js|
    ensures a + js[..|js| - 1][n..] + [js[|js| - 1]] == a + js[n..]
  {
    assert js[..|js| - 1][n..] + [js[|js| - 1]] == js[n..];
  }

  /** The joints after an abandoned pass: the ones passed so far, then the rest unchanged. */
  lemma AbandonedAt(js: seq<JointState>, cur: seq<JointState>, i: nat, xe: int, ze: int, ch: char, c0: int, counter: int)
    requires i < |js| == |cur| && cur[i + 1..] == js[i + 1..]
    requires ReconcileAll(js[..i + 1], xe, ze, ch, c0) == Reconciliation(cur[..i + 1], counter, false)
    ensures ReconcileAll(js, xe, ze, ch, c0) == Reconciliation(cur, counter, false)
  {
    ReconcileAbandoned(js, i + 1, xe, ze, ch, c0);
    assert cur == cur[..i + 1] + js[i + 1..];
  }

  /** The reconciliation pass applied to an assembly. */
  function ReconcileAt(a: Assembly, xe: int, ze: int, ch: char): Outcome {
    var r := ReconcileAll(a.joints, xe, ze, ch, a.counter);
    Outcome(a.(joints := r.joints, counter := r.counter), r.ok)
  }

  lemma ReconcileKeepsGood(a: Assembly, xe: int, ze: int, ch: char)
    requires Good(a)
    ensures Good(ReconcileAt(a, xe, ze, ch).state)
  {
    ReconcileKeepsPlaces(a.joints, xe, ze, ch, a.counter);
    ReconcileKeepsIds(a.joints, xe, ze, ch, a.counter);
  }

  // ---------------------------------------------------------------------------------------
  // Replaying the assembly sequence

  /** One step of the replay loop of fromstring: the edge stored under `key`, if any, is looked up
      in the node table, the matching handle clicked when the ends are grid neighbours, and the
      ids reconciled at the end node's position. A token shorter than two characters or an end
      missing from the node table raises an exception, which abandons the replay. */
  function ReplayKey(a: Assembly, steps: map<int, string>, nodes: map<char, JointState>, key: int): Outcome {
    if key !in steps then Outcome(a, true)
    else
      var t := steps[key];
      if |t| < 2 || t[0] !in nodes || t[1] !in nodes then Outcome(a, false)
      else
        var s := nodes[t[0]];
        var e := nodes[t[1]];
        var b := match DirectionOf(s.x, s.z, e.x, e.z)
                 case Some(d) => AssembleSpec(a, t[0], d)
                 case None => a;
        ReconcileAt(b, e.x, e.z, t[1])
  }

  /** The replay loop over keys 0 .. n - 1. */
  function ReplayUpTo(a: Assembly, steps: map<int, string>, nodes: map<char, JointState>, n: int): Outcome
    decreases n
  {
    if n <= 0 then Outcome(a, true) else ReplayFrom(ReplayUpTo(a, steps, nodes, n - 1), steps, nodes, n - 1)
  }

  /** One more key of the replay loop, unless an earlier one failed. */
  function ReplayFrom(o: Outcome, steps: map<int, string>, nodes: map<char, JointState>, key: int): Outcome {
    if !o.ok then o else ReplayKey(o.state, steps, nodes, key)
  }

  /** Once the replay has failed, later keys change nothing. */
  lemma {:induction false} ReplayAbandoned(a: Assembly, steps: map<int, string>, nodes: map<char, JointState>, m: int, n: int)
    requires m <= n && !ReplayUpTo(a, steps, nodes, m).ok
    ensures ReplayUpTo(a, steps, nodes, n) == ReplayUpTo(a, steps, nodes, m)
    decreases n - m
  {
    if m < n {
      ReplayAbandoned(a, steps, nodes, m, n - 1);
    }
  }

  /** Keys outside 0 .. n - 1 play no part in the replay of n keys. */
  lemma {:induction false} ReplayRestrict(a: Assembly, steps: map<int, string>, nodes: map<char, JointState>, n: int)
    ensures ReplayUpTo(a, steps, nodes, n) == ReplayUpTo(a, map k | k in steps && 0 <= k < n :: steps[k], nodes, n)
    decreases n
  {
    if n > 0 {
      var inner := map k | k in steps && 0 <= k < n - 1 :: steps[k];
      var outer := map k | k in steps && 0 <= k < n :: steps[k];
      ReplayRestrict(a, steps, nodes, n - 1);
      assert (map k | k in outer && 0 <= k < n - 1 :: outer[k]) == inner;
      ReplayRestrict(a, outer, nodes, n - 1);
      assert ReplayKey(ReplayUpTo(a, steps, nodes, n - 1).state, steps, nodes, n - 1)
          == ReplayKey(ReplayUpTo(a, steps, nodes, n - 1).state, outer, nodes, n - 1);
    }
  }

  lemma ReplayKeyKeepsGood(a: Assembly, steps: map<int, string>, nodes: map<char, JointState>, key: int)
    requires Good(a)
    ensures Good(ReplayKey(a, steps, nodes, key).state)
  {
    if key in steps {
      var t := steps[key];
      if !(|t| < 2 || t[0] !in nodes || t[1] !in nodes) {
        var s := nodes[t[0]];
        var e := nodes[t[1]];
        match DirectionOf(s.x, s.z, e.x, e.z)
        case Some(d) =>
          AssembleKeepsGood(a, t[0], d);
          ReconcileKeepsGood(AssembleSpec(a, t[0], d), e.x, e.z, t[1]);
        case None =>
          ReconcileKeepsGood(a, e.x, e.z, t[1]);
      }
    }
  }

  /** The replay keeps the assembly's invariant, whether or not it is abandoned. */
  lemma {:induction false} ReplayKeepsGood(a: Assembly, steps: map<int, string>, nodes: map<char, JointState>, n: int)
    requires Good(a)
    ensures Good(ReplayUpTo(a, steps, nodes, n).state)
    decreases n
  {
    if n > 0 {
      ReplayKeepsGood(a, steps, nodes, n - 1);
      ReplayStepKeepsGood(a, steps, nodes, n);
    }
  }

  lemma ReplayStepKeepsGood(a: Assembly, steps: map<int, string>, nodes: map<char, JointState>, n: int)
    requires n > 0 && Good(ReplayUpTo(a, steps, nodes, n - 1).state)
    ensures Good(ReplayUpTo(a, steps, nodes, n).state)
  {
    ReplayFromKeepsGood(ReplayUpTo(a, steps, nodes, n - 1), steps, nodes, n - 1);
  }

  lemma ReplayFromKeepsGood(o: Outcome, steps: map<int, string>, nodes: map<char, JointState>, key: int)
    requires Good(o.state)
    ensures Good(ReplayFrom(o, steps, nodes, key).state)
  {
    if o.ok {
      ReplayKeyKeepsGood(o.state, steps, nodes, key);
    }
  }

  // ---------------------------------------------------------------------------------------
  // fromstring

  /** fromstring up to the replay: the capacity is stored, the node table built and the edges
      sequenced (either failing abandons the parse with the old graphs in place), then the graphs
      are reset to the base joint and the assembly sequence replayed. The node tokens are the `*`
      pieces of the text before the first `^`, so in a design without edges the last one keeps
      the `,capacity,controller` suffix. */
  function FromStringSpec(a: Assembly, s: string): Outcome {
    Rebuild(a, Capacity(s), NodeTable(NodeTokens(s)), Sequence(EdgeTokens(s)))
  }

  /** fromstring with the node tokens cut at the first `,` as the edge tokens are. */
  function FromStringCutSpec(a: Assembly, s: string): Outcome {
    Rebuild(a, Capacity(s), NodeTable(NodeTokensCut(s)), Sequence(EdgeTokens(s)))
  }

  /** The two readings agree on every well-formed design with at least one edge. */
  lemma FromStringCutAgrees(a: Assembly, nodes: seq<string>, edges: seq<string>, suffix: string)
    requires WellFormedDesign(nodes, edges, suffix) && |edges| > 0
    ensures FromStringSpec(a, Design(nodes, edges, suffix)) == FromStringCutSpec(a, Design(nodes, edges, suffix))
  {
    NodeTokensOfDesign(nodes, edges, suffix);
  }

  /** Without edges they part: `*aMM0,*aMM0` splits into the node tokens `aMM0,` and `aMM0`,
      which share the key `a`, so the parse is abandoned with the old graphs; cut at `,` it has
      the single token `aMM0` and the graphs are rebuilt from the base joint. */
  lemma FromStringSharedKey(a: Assembly)
    ensures FromStringSpec(a, SharedKeyDesign) == Outcome(a.(payload := Capacity(SharedKeyDesign)), false)
    ensures FromStringCutSpec(a, SharedKeyDesign) == Outcome(Started(a.(payload := Capacity(SharedKeyDesign))), true)
  {
    SharedKeyTokens();
    SharedKeySplit(a, SharedKeyDesign);
  }

  /** fromstring on any text that splits as `*aMM0,*aMM0` does. */
  lemma SharedKeySplit(a: Assembly, s: string)
    requires NodeTokens(s) == ["aMM0,", "aMM0"] && NodeTokensCut(s) == ["aMM0"] && EdgeTokens(s) == []
    ensures FromStringSpec(a, s) == Outcome(a.(payload := Capacity(s)), false)
    ensures FromStringCutSpec(a, s) == Outcome(Started(a.(payload := Capacity(s))), true)
  {
    SharedKeyTable();
    SharedKeyRebuild(a.(payload := Capacity(s)), NodeTable(["aMM0"]).value);
  }

  /** An empty assembly sequence replays nothing: key 0 is missing and the loop stops there. */
  lemma SharedKeyRebuild(a1: Assembly, nodes: map<char, JointState>)
    ensures Sequence([]) == Some((map[], 0))
    ensures ReplayUpTo(Started(a1), map[], nodes, 1) == Outcome(Started(a1), true)
  {
    assert Bucket([]) == Some(Buckets(map[], [], 0));
  }

  /** Both node tokens of the as-written split carry the key `a`; the single cut token has it. */
  lemma SharedKeyTable()
    ensures NodeTable(["aMM0,", "aMM0"]).None?
    ensures NodeTable(["aMM0"]).Some?
  {
    var js := DecodedAll(["aMM0,", "aMM0"]);
    assert js[0].index == 0 && js[1].index == 0;
    KeyedDefined(js);
    var one := DecodedAll(["aMM0"]);
    assert HasKey(one[0]);
    KeyedDefined(one);
  }

  /** The steps of fromstring after the string has been read: capacity, node table and plan. */
  function Rebuild(a: Assembly, capacity: int, nodes: Option<map<char, JointState>>,
                   plan: Option<(map<int, string>, int)>): Outcome {
    var a1 := a.(payload := capacity);
    if nodes.None? || plan.None? then Outcome(a1, false)
    else ReplayUpTo(Started(a1), plan.value.0, nodes.value, plan.value.1 + 1)
  }

  /** After fromstring the capacity is that of the string; a string whose node table or edge
      list cannot be read leaves the graphs alone; otherwise the graphs are rebuilt from the base
      joint and keep the designer's invariant. */
  lemma RebuildResult(a: Assembly, capacity: int, nodes: Option<map<char, JointState>>,
                      plan: Option<(map<int, string>, int)>)
    ensures Rebuild(a, capacity, nodes, plan).state.payload == capacity
    ensures nodes.None? || plan.None? ==> Rebuild(a, capacity, nodes, plan) == Outcome(a.(payload := capacity), false)
    ensures nodes.Some? && plan.Some? ==> Good(Rebuild(a, capacity, nodes, plan).state)
  {
    var a1 := a.(payload := capacity);
    if nodes.Some? && plan.Some? {
      StartedGood(a1);
      ReplayKeepsGood(Started(a1), plan.value.0, nodes.value, plan.value.1 + 1);
      ReplayPayload(Started(a1), plan.value.0, nodes.value, plan.value.1 + 1);
    }
  }

  /** The replay leaves the capacity alone. */
  lemma {:induction false} ReplayPayload(a: Assembly, steps: map<int, string>, nodes: map<char, JointState>, n: int)
    ensures ReplayUpTo(a, steps, nodes, n).state.payload == a.payload
    decreases n
  {
    if n > 0 {
      ReplayPayload(a, steps, nodes, n - 1);
    }
  }

  // ---------------------------------------------------------------------------------------
  // Sizing a component

  /** scaleUpComponentAtJoint: a joint with a component grows it by a quarter and counts one size
      step up; a joint without one is left alone. */
  function ScaledUp(j: JointState): JointState {
    match j.component
    case None => j
    case Some(sx) => j.(component := Some(sx + 0.25), sizedata := j.sizedata + 1)
  }

  /** scaleDownComponentAtJoint: as ScaledUp, downwards, and only while the scale exceeds 0.8. */
  function ScaledDown(j: JointState): JointState {
    match j.component
    case None => j
    case Some(sx) => if sx > 0.8 then j.(component := Some(sx - 0.25), sizedata := j.sizedata - 1) else j
  }

  /** The first loop of sizeComponent, from the step count `count`. */
  function SizeUp(j: JointState, size: int, count: int): (JointState, int)
    decreases 100 - count
  {
    if j.sizedata < size && count < 100 then SizeUp(ScaledUp(j), size, count + 1) else (j, count)
  }

  /** The second loop of sizeComponent, sharing the step count of the first. */
  function SizeDown(j: JointState, size: int, count: int): (JointState, int)
    decreases 100 - count
  {
    if j.sizedata > size && count < 100 then SizeDown(ScaledDown(j), size, count + 1) else (j, count)
  }

  /** sizeComponent: nothing without a component, otherwise the two loops. */
  function Sized(j: JointState, size: int): JointState {
    if j.component.None? then j
    else
      var u := SizeUp(j, size, 0);
      SizeDown(u.0, size, u.1).0
  }

  /** The fields sizing does not touch. */
  predicate SameButSize(j: JointState, k: JointState) {
    j.index == k.index && j.x == k.x && j.z == k.z && j.componentType == k.componentType && j.locked == k.locked
  }

  lemma {:induction false} SizeUpFacts(j: JointState, size: int, count: int)
    requires j.component.Some? && 0 <= count <= 100
    ensures var r := SizeUp(j, size, count);
      && r.0.component.Some?
      && SameButSize(r.0, j)
      && count <= r.1 <= 100
      && r.0.sizedata == j.sizedata + (r.1 - count)
      && r.0.component.value == j.component.value + 0.25 * (r.1 - count) as real
      && (r.0.sizedata >= size || r.1 == 100)
      && (j.sizedata <= size ==> r.0.sizedata <= size)
      && (j.sizedata >= size ==> r == (j, count))
    decreases 100 - count
  {
    if j.sizedata < size && count < 100 {
      SizeUpFacts(ScaledUp(j), size, count + 1);
    }
  }

  lemma {:induction false} SizeDownFacts(j: JointState, size: int, count: int)
    requires j.component.Some? && 0 <= count <= 100
    ensures var r := SizeDown(j, size, count);
      && r.0.component.Some?
      && SameButSize(r.0, j)
      && count <= r.1 <= 100
      && j.sizedata - (r.1 - count) <= r.0.sizedata <= j.sizedata
      && r.0.component.value == j.component.value + 0.25 * (r.0.sizedata - j.sizedata) as real
      && (j.sizedata > size ==> size <= r.0.sizedata)
      && (j.sizedata <= size ==> r.0 == j)
      && (j.component.value <= 0.8 ==> r.0 == j)
      && (r.0.sizedata <= size || r.0.component.value <= 0.8 || j.sizedata - r.0.sizedata == r.1 - count)
      && (r.0.sizedata > size ==> r.1 == 100)
    decreases 100 - count
  {
    if j.sizedata > size && count < 100 {
      SizeDownFacts(ScaledDown(j), size, count + 1);
    }
  }

  /** Sizing moves the size counter and the scale together: the scale changes by a quarter per
      size step, and no other field changes. */
  lemma SizedScale(j: JointState, size: int)
    requires j.component.Some?
    ensures Sized(j, size).component.Some?
    ensures SameButSize(Sized(j, size), j)
    ensures Sized(j, size).component.value == j.component.value + 0.25 * (Sized(j, size).sizedata - j.sizedata) as real
  {
    SizeUpFacts(j, size, 0);
    var u := SizeUp(j, size, 0);
    SizeDownFacts(u.0, size, u.1);
  }

  /** Sizing up reaches the target within the loop's 100 steps and stops there. */
  lemma SizedUpReaches(j: JointState, size: int)
    requires j.component.Some? && j.sizedata <= size
    ensures Sized(j, size).sizedata == if size - j.sizedata <= 100 then size else j.sizedata + 100
  {
    SizeUpFacts(j, size, 0);
    var u := SizeUp(j, size, 0);
    SizeDownFacts(u.0, size, u.1);
  }

  /** Sizing down never overshoots the target, takes at most 100 steps, and stops short only when
      the scale has reached 0.8 or the steps run out. */
  lemma SizedDownStops(j: JointState, size: int)
    requires j.component.Some? && size < j.sizedata
    ensures var r := Sized(j, size);
      && r.component.Some?
      && size <= r.sizedata <= j.sizedata
      && j.sizedata - r.sizedata <= 100
      && (r.sizedata == size || r.component.value <= 0.8 || j.sizedata - r.sizedata == 100)
  {
    SizeUpFacts(j, size, 0);
    var u := SizeUp(j, size, 0);
    SizeDownFacts(u.0, size, u.1);
  }

  /** Sizing keeps the designer's invariant. */
  lemma SizedKeepsGood(a: Assembly, k: int, size: int)
    requires Good(a) && 0 <= k < |a.joints|
    requires k != 0 || a.joints[0].component.None?
    ensures Good(a.(joints := a.joints[k := Sized(a.joints[k], size)]))
  {
    var js := a.joints[k := Sized(a.joints[k], size)];
    if a.joints[k].component.Some? {
      SizedScale(a.joints[k], size);
    }
    assert forall i :: 0 <= i < |js| ==> SameButSize(js[i], a.joints[i]) by {
      forall i | 0 <= i < |js| ensures SameButSize(js[i], a.joints[i]) { }
    }
  }

  // ---------------------------------------------------------------------------------------
  // The designer

  class UAVDesigner {
    var joints: seq<JointState>
    var inactive: set<(int, Direction)>
    var intersections: seq<(int, int)>
    var connectors: seq<ConnectorInfo>
    var payload: int
    /** JointInfo's static id counter. */
    const ids: IdCounter

    function State(): Assembly
      reads this, ids
    {
      Assembly(joints, inactive, intersections, connectors, ids.value, payload)
    }

    /** A designer with empty graphs and the initial payload "2". */
    constructor (ids: IdCounter)
      ensures this.ids == ids
      ensures State() == Assembly([], {}, [], [], ids.value, 2)
    {
      this.ids := ids;
      joints, inactive, intersections, connectors := [], {}, [], [];
      payload := 2;
    }

    method AddStartingJoint()
      modifies this, ids
      ensures State() == Started(old(State()))
    {
      joints, inactive, connectors, intersections := [], {}, [], [];
      ids.Reset();
      intersections := intersections + [(0, 0)];
      var base := new JointInfo(ComponentType.None, 0, 0, 0, Option.None, ids);
      base.locked := true;
      joints := joints + [base.State()];
    }

    /** getJointByChar, as a position in `joints` (-1 for null). */
    method JointByChar(c: char) returns (k: int)
      ensures k == LastWithIndex(joints, NodeIndex(c))
    {
      var index := GetNodeIndexByChar(c);
      k := -1;
      var i := 0;
      while i < |joints|
        invariant 0 <= i <= |joints|
        invariant k == LastWithIndex(joints[..i], index)
      {
        if joints[i].index == index {
          k := i;
        }
        assert joints[..i + 1][..i] == joints[..i];
        i := i + 1;
      }
      assert joints[..i] == joints;
    }

    method AddConnector(k: int, d: Direction)
      requires 0 <= k < |joints|
      modifies this, ids
      ensures State() == AddConnectorSpec(old(State()), k, d)
    {
      ghost var a0 := State();
      var st := Step(d);
      var sx, sz := joints[k].x, joints[k].z;
      var ex, ez := sx + st.0, sz + st.1;
      assert End(a0.joints[k], d) == (ex, ez) && Centre(a0.joints[k], d) == (2 * sx + st.0, 2 * sz + st.1);
      var occupied := false;
      var i := 0;
      while i < |joints|
        invariant 0 <= i <= |joints|
        invariant occupied <==> exists m :: 0 <= m < i && At(joints[m], ex, ez)
      {
        occupied := occupied || At(joints[i], ex, ez);
        i := i + 1;
      }
      assert occupied == Occupied(a0.joints, ex, ez);
      if !occupied {
        var info := new JointInfo(ComponentType.None, 0, ex, ez, Option.None, ids);
        info.sizedata := 0;
        joints := joints + [info.State()];
      }
      ghost var b := State();
      assert b == if occupied then a0
                  else a0.(joints := a0.joints + [JointState(a0.counter, ex, ez, ComponentType.None, 0, false, Option.None)],
                           counter := a0.counter + 1);
      var cx, cz := 2 * sx + st.0, 2 * sz + st.1;
      var crossing := false;
      i := 0;
      while i < |intersections|
        invariant 0 <= i <= |intersections|
        invariant crossing <==> (cx, cz) in intersections[..i]
      {
        crossing := crossing || intersections[i] == (cx, cz);
        assert intersections[..i + 1] == intersections[..i] + [intersections[i]];
        i := i + 1;
      }
      assert intersections[..i] == intersections;
      if !crossing {
        var indexa, indexb := ConnectorEnds(sx, sz, ex, ez);
        inactive := inactive + {(k, d)};
        intersections := intersections + [(cx, cz)];
        connectors := connectors + [ConnectorInfo(indexa, indexb, !occupied)];
        assert State() == b.(inactive := b.inactive + {(k, d)},
                             intersections := b.intersections + [(cx, cz)],
                             connectors := b.connectors + [ConnectorInfo(IndexAt(b.joints, sx, sz), IndexAt(b.joints, ex, ez), !occupied)]);
      }
    }

    /** The search for the ids of the joints at a connector's two ends. */
    method ConnectorEnds(sx: int, sz: int, ex: int, ez: int) returns (indexa: int, indexb: int)
      ensures indexa == IndexAt(joints, sx, sz) && indexb == IndexAt(joints, ex, ez)
    {
      indexa, indexb := -1, -1;
      var i := 0;
      while i < |joints|
        invariant 0 <= i <= |joints|
        invariant indexa == IndexAt(joints[..i], sx, sz)
        invariant indexb == IndexAt(joints[..i], ex, ez)
      {
        if At(joints[i], sx, sz) {
          indexa := joints[i].index;
        }
        if At(joints[i], ex, ez) {
          indexb := joints[i].index;
        }
        assert joints[..i + 1][..i] == joints[..i];
        i := i + 1;
      }
      assert joints[..i] == joints;
    }

    method Assemble(c: char, d: Direction)
      modifies this, ids
      ensures State() == AssembleSpec(old(State()), c, d)
    {
      var k := JointByChar(c);
      if k >= 0 && (k, d) !in inactive {
        AddConnector(k, d);
      }
    }

    /** The reconciliation loop of fromstring at the end position (xe, ze) of an edge to ch. */
    method Reconcile(xe: int, ze: int, ch: char) returns (ok: bool)
      modifies this, ids
      ensures Outcome(State(), ok) == ReconcileAt(old(State()), xe, ze, ch)
    {
      ghost var js := joints;
      ghost var c0 := ids.value;
      var i := 0;
      while i < |joints|
        invariant 0 <= i <= |joints| == |js|
        invariant joints[i..] == js[i..]
        invariant ReconcileAll(js[..i], xe, ze, ch, c0) == Reconciliation(joints[..i], ids.value, true)
        invariant State() == old(State()).(joints := joints, counter := ids.value)
      {
        assert js[..i + 1][..i] == js[..i];
        assert joints[i] == js[i];
        ok := ReconcileJoint(i, xe, ze, ch);
        if !ok {
          AbandonedAt(js, joints, i, xe, ze, ch, c0, ids.value);
          return;
        }
        i := i + 1;
      }
      assert js[..i] == js;
      assert joints[..i] == joints;
      return true;
    }

    /** The body of the reconciliation loop for the joint at position i. */
    method ReconcileJoint(i: int, xe: int, ze: int, ch: char) returns (ok: bool)
      requires 0 <= i < |joints|
      modifies this, ids
      ensures |joints| == |old(joints)| && joints[i + 1..] == old(joints)[i + 1..]
      ensures Reconciliation(joints[..i + 1], ids.value, ok)
           == ReconcileNext(Reconciliation(old(joints)[..i], old(ids.value), true), old(joints)[i], xe, ze, ch)
      ensures State() == old(State()).(joints := joints, counter := ids.value)
    {
      var j := joints[i];
      ok := true;
      if j.x == xe && j.z == ze && !j.locked {
        if !(0 <= j.index < |NodeIdChars|) {
          assert joints[..i + 1] == joints[..i] + [j];
          return false;
        }
        NodeCharMatches(j.index, ch);
        if NodeIdChars[j.index] != ch {
          var index := GetNodeIndexByChar(ch);
          joints := joints[i := j.(index := index, locked := true)];
          ids.value := MaxInt(index + 1, ids.value);
        } else {
          joints := joints[i := j.(locked := true)];
        }
      }
      assert joints[..i + 1] == old(joints)[..i] + [joints[i]];
    }

    /** One step of the replay loop. */
    method ReplayStep(steps: map<int, string>, nodes: map<char, JointState>, key: int) returns (ok: bool)
      modifies this, ids
      ensures Outcome(State(), ok) == ReplayKey(old(State()), steps, nodes, key)
    {
      if key !in steps {
        return true;
      }
      var t := steps[key];
      if |t| < 2 || t[0] !in nodes || t[1] !in nodes {
        return false;
      }
      var s, e := nodes[t[0]], nodes[t[1]];
      var d := DirectionOf(s.x, s.z, e.x, e.z);
      if d.Some? {
        Assemble(t[0], d.value);
      }
      ok := Reconcile(e.x, e.z, t[1]);
    }

    /** The replay loop over keys 0 .. maxKey. */
    method Replay(steps: map<int, string>, maxKey: int, nodes: map<char, JointState>) returns (ok: bool)
      modifies this, ids
      ensures Outcome(State(), ok) == ReplayUpTo(old(State()), steps, nodes, maxKey + 1)
    {
      ghost var a0 := State();
      var ii := 0;
      while ii < maxKey + 1
        invariant 0 <= ii && (ii <= maxKey + 1 || ii == 0)
        invariant ReplayUpTo(a0, steps, nodes, ii) == Outcome(State(), true)
      {
        ok := ReplayStep(steps, nodes, ii);
        if !ok {
          ReplayAbandoned(a0, steps, nodes, ii + 1, maxKey + 1);
          return;
        }
        ii := ii + 1;
      }
      return true;
    }

    /** fromstring up to the replay. */
    method FromString(s: string) returns (ok: bool)
      modifies this, ids
      ensures Outcome(State(), ok) == FromStringSpec(old(State()), s)
    {
      var nodeTokens := NodeTokens(s);
      var edgeTokens := EdgeTokens(s);
      payload := Capacity(s);
      var nodes := BuildNodes(nodeTokens);
      if nodes.None? {
        return false;
      }
      var plan := SequenceEdges(edgeTokens);
      if plan.None? {
        return false;
      }
      AddStartingJoint();
      ok := Replay(plan.value.0, plan.value.1, nodes.value);
    }

    method ScaleUp(k: int)
      requires 0 <= k < |joints|
      modifies this
      ensures State() == old(State()).(joints := old(joints)[k := ScaledUp(old(joints)[k])])
    {
      var j := joints[k];
      if j.component.Some? {
        var sx := j.component.value;
        joints := joints[k := j.(component := Some(sx + 0.25), sizedata := j.sizedata + 1)];
      }
    }

    method ScaleDown(k: int)
      requires 0 <= k < |joints|
      modifies this
      ensures State() == old(State()).(joints := old(joints)[k := ScaledDown(old(joints)[k])])
    {
      var j := joints[k];
      if j.component.Some? {
        var sx := j.component.value;
        if sx > 0.8 {
          joints := joints[k := j.(component := Some(sx - 0.25), sizedata := j.sizedata - 1)];
        }
      }
    }

    method SizeComponent(k: int, size: int)
      requires 0 <= k < |joints|
      modifies this
      ensures State() == old(State()).(joints := old(joints)[k := Sized(old(joints)[k], size)])
    {
      if joints[k].component.None? {
        return;
      }
      ghost var j0 := joints[k];
      var counter := 0;
      while joints[k].sizedata < size && counter < 100
        invariant 0 <= counter <= 100 && |joints| == |old(joints)|
        invariant SizeUp(joints[k], size, counter) == SizeUp(j0, size, 0)
        invariant State() == old(State()).(joints := old(joints)[k := joints[k]])
        decreases 100 - counter
      {
        ScaleUp(k);
        counter := counter + 1;
      }
      ghost var u := SizeUp(j0, size, 0);
      assert joints[k] == u.0 && counter == u.1;
      while joints[k].sizedata > size && counter < 100
        invariant 0 <= counter <= 100 && |joints| == |old(joints)|
        invariant SizeDown(joints[k], size, counter) == SizeDown(u.0, size, u.1)
        invariant State() == old(State()).(joints := old(joints)[k := joints[k]])
        decreases 100 - counter
      {
        ScaleDown(k);
        counter := counter + 1;
      }
    }
  }
}
