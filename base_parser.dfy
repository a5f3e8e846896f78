/**
 * The text helper every extractor uses. The source is held as a sequence of
 * characters indexed directly by the nodes' byte offsets, which is exact for
 * ASCII sources.
 */
module BaseParser {
  import opened SyntaxTree

  function Min(a: nat, b: nat): nat { if a <= b then a else b }

  /**
   * `source_code[node.start_byte:node.end_byte]`, with Python's clamping of
   * slice bounds to the length of the source. Offsets are natural numbers, so
   * the slice never raises and the fallback to "" is never taken.
   */
  function NodeText(n: Node, src: string): (r: string)
    ensures r == [] <==> n.startByte >= n.endByte || n.startByte >= |src|
    ensures r != [] ==> n.startByte + |r| <= |src| && r == src[n.startByte..n.startByte + |r|]
    ensures r != [] ==> |r| == Min(n.endByte, |src|) - n.startByte
    ensures |r| <= |src|
  {
    var lo := Min(n.startByte, |src|);
    var hi := Min(n.endByte, |src|);
    if lo < hi then src[lo..hi] else ""
  }

  /** `NodeText` as a function value, for the walks that map it over children. */
  function TextOf(src: string): Node -> string
  {
    n => NodeText(n, src)
  }

  /** A node whose range lies inside the source gives exactly that range. */
  lemma NodeTextInRange(n: Node, src: string)
    requires n.startByte <= n.endByte <= |src|
    ensures NodeText(n, src) == src[n.startByte..n.endByte]
  {
  }

  /** The root node of a parse spans the whole source and gives it back whole. */
  lemma RootTextIsSource(root: Node, src: string)
    requires root.startByte == 0 && root.endByte == |src|
    ensures NodeText(root, src) == src
  {
    assert src[0..|src|] == src;
  }
}
