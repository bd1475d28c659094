/** ConnectorInfo: one edge of the design graph and its edge token `^` start end. */
module Connectors {
  import opened Basics
  import opened Joints

  /** A connector from node index x1 to node index x2; addedComponent is false when the
      connector closed a cycle onto an existing joint. */
  datatype ConnectorInfo = ConnectorInfo(x1: int, x2: int, addedComponent: bool)

  predicate IsNodeIndex(i: int) {
    0 <= i < |NodeIdChars|
  }

  /** grammar(): `^` followed by the identifier characters of both ends. None models the
      IndexOutOfRangeException of an end outside the identifier table (an end of -1, say). */
  function ConnectorGrammar(c: ConnectorInfo): (r: Option<string>)
    ensures r.Some? <==> IsNodeIndex(c.x1) && IsNodeIndex(c.x2)
    ensures r.Some? ==> |r.value| == 3 && r.value[0] == '^'
  {
    if IsNodeIndex(c.x1) && IsNodeIndex(c.x2) then Some(['^', NodeIdChars[c.x1], NodeIdChars[c.x2]])
    else Option.None
  }

  /** Reading an edge token back, as the design parser does: the identifier characters
      after the `^` map back to node indices. */
  function ReadEdge(token: string): (r: (int, int))
    requires |token| >= 2
  {
    (NodeIndex(token[0]), NodeIndex(token[1]))
  }

  /** Round trip: the token written for a connector reads back as the connector's two ends. */
  lemma ConnectorRoundTrip(c: ConnectorInfo)
    requires IsNodeIndex(c.x1) && IsNodeIndex(c.x2)
    ensures ConnectorGrammar(c).Some?
    ensures ReadEdge(ConnectorGrammar(c).value[1..]) == (c.x1, c.x2)
  {
    NodeIndexOfChar(c.x1);
    NodeIndexOfChar(c.x2);
  }

  /** The written form does not carry addedComponent: two connectors with the same ends
      print the same token. */
  lemma ConnectorGrammarIgnoresFlag(c: ConnectorInfo, d: ConnectorInfo)
    requires c.x1 == d.x1 && c.x2 == d.x2
    ensures ConnectorGrammar(c) == ConnectorGrammar(d)
  {
  }

  /** Distinct ends give distinct tokens. */
  lemma ConnectorGrammarInjective(c: ConnectorInfo, d: ConnectorInfo)
    requires ConnectorGrammar(c).Some? && ConnectorGrammar(c) == ConnectorGrammar(d)
    ensures c.x1 == d.x1 && c.x2 == d.x2
  {
    ConnectorRoundTrip(c);
    ConnectorRoundTrip(d);
  }
}
