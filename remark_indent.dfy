/** The `:::` indent plugin for the Markdown renderer: in every text node of
    the syntax tree, each `:::` marker and the white space after it become
    three em spaces (U+2003). */
module RemarkIndent {
  import opened Strings

  const Marker: string := ":::"
  const EmSpaces: string := "\U{2003}\U{2003}\U{2003}"

  /** `s` starts with the marker. */
  predicate AtMarker(s: string) {
    |s| >= 3 && s[..3] == Marker
  }

  /** The global replacement of the pattern `:::\s*` by EmSpaces, scanning
      left to right: a marker and
      the longest white-space run after it are replaced, and scanning resumes
      after them. */
  function Replaced(s: string): (r: string)
    decreases |s|
  {
    if AtMarker(s) then EmSpaces + Replaced(TrimStart(s[3..]))
    else if s == [] then []
    else [s[0]] + Replaced(s[1..])
  }

  /** The new `node.value` of a text node: rewritten only when it includes
      the marker. */
  function Rewrite(value: string): string {
    if Includes(value, Marker) then Replaced(value) else value
  }

  /** No marker anywhere, as a recursion on the string. */
  predicate Free(s: string) {
    |s| < 3 || (!AtMarker(s) && Free(s[1..]))
  }

  lemma {:induction false} FreeIff(s: string)
    ensures Free(s) <==> !Includes(s, Marker)
  {
    if |s| >= 3 {
      FreeIff(s[1..]);
      if Includes(s[1..], Marker) {
        var i :| OccursAt(s[1..], Marker, i);
        assert s[1..][i..i + 3] == s[i + 1..i + 4];
        assert OccursAt(s, Marker, i + 1);
      }
      if Includes(s, Marker) && !AtMarker(s) {
        var i :| OccursAt(s, Marker, i);
        assert i != 0;
        assert s[1..][i - 1..i + 2] == s[i..i + 3];
        assert OccursAt(s[1..], Marker, i - 1);
      }
    } else {
      assert forall i :: !OccursAt(s, Marker, i);
    }
  }

  /** A string without the marker is left as it is. */
  lemma {:induction false} ReplacedFree(s: string)
    requires Free(s)
    ensures Replaced(s) == s
    decreases |s|
  {
    if s != [] {
      ReplacedFree(s[1..]);
    }
  }

  lemma FreeCons(c: char, t: string)
    requires c != ':' && Free(t)
    ensures Free([c] + t)
  {
    var u := [c] + t;
    assert u[0] == c && u[1..] == t;
    assert |u| >= 3 ==> u[..3][0] == c;
  }

  /** Rewritten text starts with a colon only where the input does. */
  lemma ColonHead(u: string)
    ensures |Replaced(u)| > 0 && Replaced(u)[0] == ':' ==> |u| > 0 && u[0] == ':'
  {
    if AtMarker(u) {
      assert Replaced(u)[0] == '\U{2003}';
    }
  }

  /** Rewritten text starts with two colons only where the input does. */
  lemma ColonsHead(u: string)
    ensures |Replaced(u)| > 1 && Replaced(u)[0] == ':' && Replaced(u)[1] == ':' ==>
      |u| > 1 && u[0] == ':' && u[1] == ':'
  {
    ColonHead(u);
    if |Replaced(u)| > 1 && Replaced(u)[0] == ':' && Replaced(u)[1] == ':' {
      assert !AtMarker(u);
      assert Replaced(u) == [u[0]] + Replaced(u[1..]);
      ColonHead(u[1..]);
    }
  }

  /** The rewritten text contains no marker. */
  lemma {:induction false} ReplacedFreeOfMarker(s: string)
    ensures Free(Replaced(s))
    decreases |s|
  {
    if AtMarker(s) {
      ReplacedFreeOfMarker(TrimStart(s[3..]));
      MarkerStep(s);
    } else if s != [] {
      ReplacedFreeOfMarker(s[1..]);
      CopyStep(s);
    }
  }

  /** Three em spaces in front of marker-free text give marker-free text. */
  lemma MarkerStep(s: string)
    requires AtMarker(s) && Free(Replaced(TrimStart(s[3..])))
    ensures Free(Replaced(s))
  {
    var t := Replaced(TrimStart(s[3..]));
    var e := '\U{2003}';
    FreeCons(e, t);
    FreeCons(e, [e] + t);
    FreeCons(e, [e] + ([e] + t));
    assert EmSpaces + t == [e] + ([e] + ([e] + t));
  }

  /** A copied character does not complete a marker: it would have been
      one in the input. */
  lemma CopyStep(s: string)
    requires !AtMarker(s) && s != [] && Free(Replaced(s[1..]))
    ensures Free(Replaced(s))
  {
    var r := Replaced(s[1..]);
    assert Replaced(s) == [s[0]] + r;
    ColonsHead(s[1..]);
    assert !(|s| >= 3 && s[0] == ':' && s[1] == ':' && s[2] == ':') by {
      if |s| >= 3 {
        assert s[..3] == [s[0], s[1], s[2]];
      }
    }
    assert (|s| > 1 ==> s[1..][0] == s[1]) && (|s| > 2 ==> s[1..][1] == s[2]);
    ConsFree(s[0], r);
  }

  /** A character in front of marker-free text makes no marker unless it is
      a colon before two colons. */
  lemma ConsFree(c: char, r: string)
    requires Free(r) && !(c == ':' && |r| > 1 && r[0] == ':' && r[1] == ':')
    ensures Free([c] + r)
  {
    var u := [c] + r;
    assert u[1..] == r;
    if |u| >= 3 {
      assert u[..3] == [c, r[0], r[1]];
    }
  }

  /** The plugin leaves a value without the marker unchanged. */
  lemma RewriteWithoutMarker(value: string)
    requires !Includes(value, Marker)
    ensures Rewrite(value) == value
  {
  }

  /** The rewritten value has no marker, so rewriting again changes nothing. */
  lemma Idempotent(value: string)
    ensures !Includes(Rewrite(value), Marker)
    ensures Rewrite(Rewrite(value)) == Rewrite(value)
  {
    ReplacedFreeOfMarker(value);
    FreeIff(Replaced(value));
  }

  /** A marker with the white space after it becomes exactly three em
      spaces, and the rest is rewritten on its own. */
  lemma MarkerAndSpaces(spaces: string, rest: string)
    requires IsBlank(spaces)
    requires rest == [] || !IsSpace(rest[0])
    ensures Replaced(Marker + spaces + rest) == EmSpaces + Replaced(rest)
  {
    var s := Marker + spaces + rest;
    assert AtMarker(s);
    assert s[3..] == spaces + rest;
    TrimStartBlank(spaces, rest);
  }

  /** A character that cannot start a marker is copied. */
  lemma Copied(c: char, rest: string)
    requires c != ':'
    ensures Replaced([c] + rest) == [c] + Replaced(rest)
  {
    var s := [c] + rest;
    assert s[0] == c && s[1..] == rest;
    assert !AtMarker(s) by {
      assert |s| >= 3 ==> s[..3][0] == c;
    }
  }

  // ---------------------------------------------------------------------
  // The syntax tree
  // ---------------------------------------------------------------------

  /** A syntax-tree node: its type and, for text nodes, its value. */
  class MdNode {
    const nodeType: string
    var value: string

    constructor (nodeType: string, value: string)
      ensures this.nodeType == nodeType && this.value == value
    {
      this.nodeType := nodeType;
      this.value := value;
    }
  }

  /** The shape of a tree: each node with its children. */
  datatype Tree = Tree(node: MdNode, children: seq<Tree>)

  /** The nodes in the order the visitor meets them (preorder). */
  function Nodes(t: Tree): seq<MdNode>
    decreases t, 1
  {
    [t.node] + NodesOf(t.children)
  }

  function NodesOf(ts: seq<Tree>): seq<MdNode>
    decreases ts, 0
  {
    if ts == [] then [] else Nodes(ts[0]) + NodesOf(ts[1..])
  }

  /** Each node occurs once. */
  predicate Distinct(ns: seq<MdNode>) {
    forall i, j :: 0 <= i < j < |ns| ==> ns[i] != ns[j]
  }

  /** What the transformer does to one node. */
  function After(n: MdNode, value: string): string {
    if n.nodeType == "text" then Rewrite(value) else value
  }

  /** The transformer returned by the plugin: every text node of the tree
      gets its value rewritten in place; other nodes keep theirs. */
  method Transform(tree: Tree)
    requires Distinct(Nodes(tree))
    modifies set n | n in Nodes(tree)
    ensures forall n :: n in Nodes(tree) ==> n.value == After(n, old(n.value))
  {
    var ns := Nodes(tree);
    ghost var before := map n | n in ns :: n.value;
    for i := 0 to |ns|
      invariant forall k :: 0 <= k < i ==> ns[k].value == After(ns[k], before[ns[k]])
      invariant forall k :: i <= k < |ns| ==> ns[k].value == before[ns[k]]
    {
      var node := ns[i];
      assert forall k :: 0 <= k < |ns| && k != i ==> ns[k] != node;
      if node.nodeType == "text" {
        if Includes(node.value, Marker) {
          node.value := Replaced(node.value);
        }
      }
    }
  }
}
