/**
 lunr.TokenStore: a trie of heap nodes, one per code unit, whose nodes hold the documents of the
 token they spell.  It refines a map from token to its documents.
 */
module TokenStores {
  import opened JsStrings

  /** What the trie stores for a document under a token. */
  datatype Posting = Posting(ref: Str, tf: real)

  type Docs = map<Str, Posting>

  // ---------------------------------------------------------------- the specification

  /** Tokens with at least one document, and those documents by reference. */
  type Postings = map<Str, Docs>

  function DocsOf(posts: Postings, token: Str): Docs {
    if token in posts then posts[token] else map[]
  }

  function AddPosting(posts: Postings, token: Str, doc: Posting): Postings {
    posts[token := DocsOf(posts, token)[doc.ref := doc]]
  }

  function RemovePosting(posts: Postings, token: Str, ref: Str): Postings {
    var left := DocsOf(posts, token) - {ref};
    if left == map[] then posts - {token} else posts[token := left]
  }

  /** The live tokens that `token` is a prefix of; the empty token expands to nothing. */
  function Expansion(posts: Postings, token: Str): set<Str> {
    set k | k in posts && token != [] && token <= k
  }

  // ---------------------------------------------------------------- the trie as a map

  /** The documents at every node, by the string that leads to the node. */
  type Paths = map<Str, Docs>

  function Child(path: Str, key: CodeUnit): Str {
    path + [key]
  }

  /** `if (!(key in root)) root[key] = {docs: {}}` */
  function GrowPath(paths: Paths, here: Str): Paths {
    if here in paths then paths else paths[here := map[]]
  }

  /** The recursion of `add`, on the map. */
  function AddPath(paths: Paths, path: Str, token: Str, doc: Posting): Paths
    requires token != []
    decreases |token|
  {
    var here := Child(path, token[0]);
    var grown := GrowPath(paths, here);
    if token[1..] == [] then grown[here := grown[here][doc.ref := doc]]
    else AddPath(grown, here, token[1..], doc)
  }

  lemma AddPathUnfolds(paths: Paths, path: Str, token: Str, doc: Posting, here: Str, grown: Paths)
    requires token != [] && here == Child(path, token[0]) && grown == GrowPath(paths, here)
    ensures |token| == 1 ==> AddPath(paths, path, token, doc) == grown[here := grown[here][doc.ref := doc]]
    ensures |token| > 1 ==> AddPath(paths, path, token, doc) == AddPath(grown, here, token[1..], doc)
  {
  }

  /** What the map of nodes means. */
  function Live(paths: Paths): Postings {
    map p | p in paths && paths[p] != map[] :: paths[p]
  }

  predicate Between(path: Str, p: Str, full: Str) {
    path < p && p <= full
  }

  lemma PrefixStep(path: Str, key: CodeUnit, rest: Str)
    ensures forall p :: Between(path, p, path + ([key] + rest)) <==>
                        p == Child(path, key) || Between(Child(path, key), p, Child(path, key) + rest)
  {
    assert path + ([key] + rest) == Child(path, key) + rest;
    forall p | Between(path, p, path + ([key] + rest))
      ensures Child(path, key) <= p
    {
      assert p[|path|] == key;
    }
  }

  /** Adding a token creates the nodes of its prefixes and puts the document at its end. */
  lemma {:induction false} AddPathEffect(paths: Paths, path: Str, token: Str, doc: Posting)
    requires token != []
    ensures var paths' := AddPath(paths, path, token, doc);
            && (forall p :: p in paths' <==> p in paths || Between(path, p, path + token))
            && (forall p :: p in paths' ==>
                              paths'[p] == if p == path + token then DocsOf(paths, p)[doc.ref := doc]
                              else DocsOf(paths, p))
    decreases |token|
  {
    var here, rest := Child(path, token[0]), token[1..];
    assert token == [token[0]] + rest;
    PrefixStep(path, token[0], rest);
    var grown := GrowPath(paths, here);
    AddPathUnfolds(paths, path, token, doc, here, grown);
    assert path + token == here + rest;
    if rest != [] {
      AddPathEffect(grown, here, rest, doc);
      GrowThenAdd(paths, grown, AddPath(paths, path, token, doc), path, here, path + token, doc);
    } else {
      assert path + token == here;
    }
  }

  /** What adding below a node that has just been made is for the node above it. */
  lemma GrowThenAdd(paths: Paths, grown: Paths, paths': Paths, path: Str, here: Str, full: Str, doc: Posting)
    requires grown == GrowPath(paths, here)
    requires forall p :: Between(path, p, full) <==> p == here || Between(here, p, full)
    requires forall p :: p in paths' <==> p in grown || Between(here, p, full)
    requires forall p :: p in paths' ==>
                           paths'[p] == if p == full then DocsOf(grown, p)[doc.ref := doc] else DocsOf(grown, p)
    ensures forall p :: p in paths' <==> p in paths || Between(path, p, full)
    ensures forall p :: p in paths' ==>
                          paths'[p] == if p == full then DocsOf(paths, p)[doc.ref := doc] else DocsOf(paths, p)
  {
    hide Between;
    assert forall p :: DocsOf(grown, p) == DocsOf(paths, p);
  }

  lemma LiveAt(paths: Paths, p: Str)
    ensures p in Live(paths) <==> p in paths && paths[p] != map[]
    ensures DocsOf(Live(paths), p) == DocsOf(paths, p)
  {
  }

  lemma LiveElsewhere(paths: Paths, paths': Paths, token: Str)
    requires forall p :: p != token ==> DocsOf(paths', p) == DocsOf(paths, p)
    ensures forall p :: p != token ==> (p in Live(paths') <==> p in Live(paths))
    ensures forall p :: p != token && p in Live(paths) ==> Live(paths')[p] == Live(paths)[p]
  {
    forall p | p != token
      ensures p in Live(paths') <==> p in Live(paths)
      ensures p in Live(paths) ==> Live(paths')[p] == Live(paths)[p]
    {
      assert DocsOf(paths', p) == DocsOf(paths, p);
    }
  }

  /** `add` refines the insertion into a map. */
  lemma AddPathRefines(paths: Paths, paths': Paths, token: Str, doc: Posting)
    requires token != [] && paths' == AddPath(paths, [], token, doc)
    ensures Live(paths') == AddPosting(Live(paths), token, doc)
  {
    hide AddPath;
    AddPathEffect(paths, [], token, doc);
    assert [] + token == token && Between([], token, token);
    LiveAt(paths, token);
    assert paths'[token] == DocsOf(Live(paths), token)[doc.ref := doc];
    assert doc.ref in paths'[token];
    forall p | p != token
      ensures DocsOf(paths', p) == DocsOf(paths, p)
    {
      assert p in paths ==> p in paths';
    }
    LiveElsewhere(paths, paths', token);
  }

  /** `remove` refines the removal from a map. */
  lemma RemovePathRefines(paths: Paths, paths': Paths, token: Str, ref: Str)
    requires token in paths && paths' == paths[token := paths[token] - {ref}]
    ensures Live(paths') == RemovePosting(Live(paths), token, ref)
  {
    LiveAt(paths, token);
    forall p | p != token
      ensures p in Live(paths') <==> p in Live(paths)
      ensures p in Live(paths) ==> Live(paths')[p] == Live(paths)[p]
    {
    }
  }

  function RemovePath(paths: Paths, token: Str, ref: Str): Paths {
    if token != [] && token in paths then paths[token := paths[token] - {ref}] else paths
  }

  // ---------------------------------------------------------------- runs

  datatype TrieOp = TrieAdd(token: Str, doc: Posting) | TrieRemove(token: Str, ref: Str)

  predicate WellFormed(ops: seq<TrieOp>) {
    forall k :: 0 <= k < |ops| && ops[k].TrieAdd? ==> ops[k].token != []
  }

  function RunPaths(ops: seq<TrieOp>): Paths
    requires WellFormed(ops)
  {
    if ops == [] then map[[] := map[]]
    else
      var before := RunPaths(ops[..|ops| - 1]);
      match ops[|ops| - 1]
      case TrieAdd(token, doc) => AddPath(before, [], token, doc)
      case TrieRemove(token, ref) => RemovePath(before, token, ref)
  }

  function RunPostings(ops: seq<TrieOp>): Postings {
    if ops == [] then map[]
    else
      var before := RunPostings(ops[..|ops| - 1]);
      match ops[|ops| - 1]
      case TrieAdd(token, doc) => AddPosting(before, token, doc)
      case TrieRemove(token, ref) => RemovePosting(before, token, ref)
  }

  ghost predicate EverAdded(ops: seq<TrieOp>, p: Str) {
    exists k :: 0 <= k < |ops| && ops[k].TrieAdd? && p <= ops[k].token
  }

  /** Over any run of adds and removes the trie means the map that the run builds; and a node
      exists exactly for the prefixes of the tokens ever added, removed again or not. */
  lemma {:induction false} RunsRefine(ops: seq<TrieOp>)
    requires WellFormed(ops)
    ensures Live(RunPaths(ops)) == RunPostings(ops)
    ensures [] in RunPaths(ops) && RunPaths(ops)[[]] == map[]
    ensures forall p :: p in RunPaths(ops) <==> p == [] || EverAdded(ops, p)
  {
    if ops != [] {
      var front, last := ops[..|ops| - 1], ops[|ops| - 1];
      RunsRefine(front);
      EverAddedMore(front, last);
      hide AddPath, Live, AddPosting, RemovePosting, EverAdded;
      assert ops == front + [last];
      match last
      case TrieAdd(token, doc) =>
        AddPathRefines(RunPaths(front), RunPaths(ops), token, doc);
        AddPathEffect(RunPaths(front), [], token, doc);
        assert [] + token == token;
        assert forall p :: p != [] ==> (Between([], p, token) <==> p <= token);
      case TrieRemove(token, ref) =>
        LiveAt(RunPaths(front), token);
        if token != [] && token in RunPaths(front) {
          RemovePathRefines(RunPaths(front), RunPaths(ops), token, ref);
        }
    }
  }

  lemma EverAddedMore(front: seq<TrieOp>, last: TrieOp)
    ensures forall p :: EverAdded(front + [last], p) <==> EverAdded(front, p) || (last.TrieAdd? && p <= last.token)
  {
    var ops := front + [last];
    forall p
      ensures EverAdded(ops, p) <==> EverAdded(front, p) || (last.TrieAdd? && p <= last.token)
    {
      if last.TrieAdd? && p <= last.token {
        assert ops[|front|] == last;
      }
      if EverAdded(front, p) {
        var k :| 0 <= k < |front| && front[k].TrieAdd? && p <= front[k].token;
        assert ops[k] == front[k];
      }
    }
  }

  // ---------------------------------------------------------------- the trie on the heap

  class Node {
    var docs: Docs
    var children: map<CodeUnit, Node>

    constructor ()
      ensures docs == map[] && children == map[]
    {
      docs, children := map[], map[];
    }
  }

  type Kids = map<Str, map<CodeUnit, Node>>

  /** A node has a child under `c` exactly when one unit more spells a node, and it is that one. */
  ghost predicate Joined(children: map<CodeUnit, Node>, p: Str, c: CodeUnit, nodes: map<Str, Node>) {
    if c in children then Child(p, c) in nodes && children[c] == nodes[Child(p, c)] else Child(p, c) !in nodes
  }

  ghost predicate Links(children: map<CodeUnit, Node>, p: Str, nodes: map<Str, Node>) {
    forall c :: Joined(children, p, c, nodes)
  }

  ghost predicate LinkedAt(kids: Kids, p: Str, nodes: map<Str, Node>) {
    p in kids ==> Links(kids[p], p, nodes)
  }

  ghost predicate Linked(kids: Kids, nodes: map<Str, Node>) {
    kids.Keys == nodes.Keys && forall p :: LinkedAt(kids, p, nodes)
  }

  /** Different strings lead to different nodes. */
  ghost predicate Apart(nodes: map<Str, Node>, p: Str, q: Str) {
    p in nodes && q in nodes && p != q ==> nodes[p] != nodes[q]
  }

  lemma HasChild(kids: Kids, p: Str, nodes: map<Str, Node>, key: CodeUnit)
    requires Linked(kids, nodes) && p in nodes
    ensures key in kids[p] <==> Child(p, key) in nodes
    ensures key in kids[p] ==> kids[p][key] == nodes[Child(p, key)]
    ensures Child(p, key) != p
  {
    assert LinkedAt(kids, p, nodes);
    assert Joined(kids[p], p, key, nodes);
  }

  predicate PrefixOf(p: Str, q: Str) {
    p <= q
  }

  /** Every prefix of a spelled string is spelled. */
  ghost predicate PrefixClosed(keys: set<Str>) {
    forall p, q :: q in keys && PrefixOf(p, q) ==> p in keys
  }

  lemma GrowKeysClosed(keys: set<Str>, path: Str, key: CodeUnit)
    requires PrefixClosed(keys) && path in keys
    ensures PrefixClosed(keys + {Child(path, key)})
    ensures Child(path, key) !in keys ==> forall c :: Child(Child(path, key), c) !in keys
  {
    var here := Child(path, key);
    forall p | PrefixOf(p, here)
      ensures p == here || p in keys
    {
      if |p| == |here| {
        assert p == here;
      } else {
        assert PrefixOf(p, path);
      }
    }
    forall c
      ensures Child(here, c) in keys ==> here in keys
    {
      assert PrefixOf(here, Child(here, c));
    }
  }

  lemma ChildOnce(p: Str, c: CodeUnit, q: Str, d: CodeUnit)
    ensures Child(p, c) == Child(q, d) <==> p == q && c == d
    ensures Child(p, c) != p && Child(p, c) != []
  {
    if Child(p, c) == Child(q, d) {
      assert p == Child(p, c)[..|p|] && q == Child(q, d)[..|q|];
      assert c == Child(p, c)[|p|];
    }
  }

  lemma GrowLinks(children: map<CodeUnit, Node>, p: Str, nodes: map<Str, Node>, path: Str, key: CodeUnit, child: Node)
    requires Links(children, p, nodes) && Child(path, key) !in nodes
    ensures p != path ==> Links(children, p, nodes[Child(path, key) := child])
    ensures p == path ==> Links(children[key := child], p, nodes[Child(path, key) := child])
  {
    var nodes' := nodes[Child(path, key) := child];
    forall c
      ensures p != path ==> Joined(children, p, c, nodes')
      ensures p == path ==> Joined(children[key := child], p, c, nodes')
    {
      assert Joined(children, p, c, nodes);
      ChildOnce(p, c, path, key);
    }
  }

  /** A new node under an existing one keeps the trie linked. */
  lemma GrowLinked(kids: Kids, nodes: map<Str, Node>, path: Str, key: CodeUnit, child: Node, kids': Kids,
                   nodes': map<Str, Node>)
    requires Linked(kids, nodes) && PrefixClosed(nodes.Keys) && path in nodes && Child(path, key) !in nodes
    requires kids' == kids[Child(path, key) := map[]][path := kids[path][key := child]]
    requires nodes' == nodes[Child(path, key) := child]
    ensures Linked(kids', nodes') && PrefixClosed(nodes'.Keys)
  {
    var here := Child(path, key);
    GrowKeysClosed(nodes.Keys, path, key);
    assert nodes'.Keys == nodes.Keys + {here};
    ChildOnce(path, key, path, key);
    forall p
      ensures LinkedAt(kids', p, nodes')
    {
      if p == here {
        forall c
          ensures Joined(map[], here, c, nodes')
        {
          ChildOnce(here, c, path, key);
        }
      } else if p in kids {
        assert LinkedAt(kids, p, nodes);
        GrowLinks(kids[p], p, nodes, path, key, child);
      }
    }
  }

  lemma OnlyRoot(root: Node)
    ensures Linked(map[[] := map[]], map[[] := root])
  {
    forall p: Str
      ensures LinkedAt(map[[] := map[]], p, map[[] := root])
    {
      if p == [] {
        forall c
          ensures Joined(map[], [], c, map[[] := root])
        {
          ChildOnce([], c, [], c);
        }
        assert Links(map[], [], map[[] := root]);
      }
    }
  }

  class TokenStore {
    var root: Node
    var length: nat
    /** Every node by the string that leads to it, with its documents and children. */
    ghost var nodes: map<Str, Node>
    ghost var paths: Paths
    ghost var kids: Kids
    ghost var repr: set<Node>

    ghost predicate Valid()
      reads this`root, this`nodes, this`paths, this`kids, this`repr, repr
    {
      Synced() && Linked(kids, nodes) && PrefixClosed(nodes.Keys)
    }

    ghost predicate Synced()
      reads this`root, this`nodes, this`paths, this`kids, this`repr, repr
    {
      && (forall p :: AtRoot(p))
      && (forall p, q :: Apart(nodes, p, q))
      && (forall p :: InSync(p))
    }

    /** The empty string spells the root, which holds no document. */
    ghost predicate AtRoot(p: Str)
      reads this`root, this`nodes, this`paths
    {
      p == [] ==> p in nodes && nodes[p] == root && p in paths && paths[p] == map[]
    }

    /** The node spelled `p` holds what the ghost maps say. */
    ghost predicate InSync(p: Str)
      reads this`nodes, this`paths, this`kids, this`repr, repr
    {
      && (p in nodes <==> p in paths) && (p in nodes <==> p in kids)
      && (p in nodes ==> nodes[p] in repr && nodes[p].docs == paths[p] && nodes[p].children == kids[p])
    }

    ghost function Contents(): Postings
      reads this`paths
    {
      Live(paths)
    }

    constructor ()
      ensures Valid() && paths == map[[] := map[]] && length == 0
      ensures fresh(repr)
    {
      root := new Node();
      length := 0;
      new;
      nodes, paths, kids, repr := map[[] := root], map[[] := map[]], map[[] := map[]], {root};
      OnlyRoot(root);
    }

    /** A node joins the trie under a new string; nothing on the heap changes. */
    ghost method Register(here: Str, child: Node)
      requires Synced() && here !in nodes && here != [] && child !in repr
      requires child.docs == map[] && child.children == map[]
      modifies this`nodes, this`paths, this`kids, this`repr
      ensures Synced() && nodes == old(nodes)[here := child] && repr == old(repr) + {child}
      ensures kids == old(kids)[here := map[]] && paths == old(paths)[here := map[]]
    {
      var nodes' := nodes[here := child];
      forall p, q
        ensures Apart(nodes', p, q)
      {
        assert Apart(nodes, p, q) && InSync(p) && InSync(q);
      }
      nodes, paths, kids, repr := nodes', paths[here := map[]], kids[here := map[]], repr + {child};
      forall p
        ensures InSync(p) && AtRoot(p)
      {
        assert old(InSync(p)) && old(AtRoot(p));
      }
    }

    /** A child is hung under its parent. */
    method Hang(node: Node, key: CodeUnit, child: Node, ghost path: Str)
      requires Synced() && path in nodes && nodes[path] == node
      modifies this`kids, node`children
      ensures Synced() && path in old(kids) && kids == old(kids)[path := old(kids[path])[key := child]]
    {
      assert InSync(path);
      forall p | p in nodes && p != path
        ensures nodes[p] != node
      {
        assert Apart(nodes, p, path);
      }
      node.children := node.children[key := child];
      kids := kids[path := kids[path][key := child]];
      forall p
        ensures InSync(p) && AtRoot(p)
      {
        assert old(InSync(p)) && old(AtRoot(p));
      }
    }

    method NewChild(node: Node, key: CodeUnit, ghost path: Str, ghost here: Str) returns (child: Node)
      requires Synced() && path in nodes && nodes[path] == node && here !in nodes && here != []
      modifies this`nodes, this`paths, this`kids, this`repr, node`children
      ensures Synced() && fresh(child) && nodes == old(nodes)[here := child] && repr == old(repr) + {child}
      ensures path in old(kids) && kids == old(kids)[here := map[]][path := old(kids[path])[key := child]]
      ensures paths == old(paths)[here := map[]]
    {
      child := new Node();
      Register(here, child);
      Hang(node, key, child, path);
    }

    /** `if (!(key in root)) root[key] = {docs: {}}`, and the node there. */
    method Grow(node: Node, key: CodeUnit, ghost path: Str) returns (child: Node)
      requires Valid() && path in nodes && nodes[path] == node
      modifies this`nodes, this`paths, this`kids, this`repr, node`children
      ensures Valid()
      ensures Child(path, key) in nodes && nodes[Child(path, key)] == child && child in repr
      ensures repr >= old(repr) && forall o :: o in repr && o !in old(repr) ==> fresh(o)
      ensures paths == GrowPath(old(paths), Child(path, key))
    {
      ghost var kids0, nodes0, here := kids, nodes, Child(path, key);
      HasChild(kids, path, nodes, key);
      assert InSync(path) && InSync(here);
      if key !in node.children {
        child := NewChild(node, key, path, here);
        GrowLinked(kids0, nodes0, path, key, child, kids, nodes);
      } else {
        child := node.children[key];
      }
    }

    /** `root[key].docs[doc.ref] = doc`, and the length counts it. */
    method Place(node: Node, doc: Posting, ghost path: Str)
      requires Valid() && path != [] && path in nodes && nodes[path] == node
      modifies this`paths, this`length, node`docs
      ensures Valid() && length == old(length) + 1
      ensures path in old(paths) && paths == old(paths)[path := old(paths[path])[doc.ref := doc]]
    {
      assert InSync(path);
      forall p | p in nodes && p != path
        ensures nodes[p] != node
      {
        assert Apart(nodes, p, path);
      }
      node.docs := node.docs[doc.ref := doc];
      paths := paths[path := node.docs];
      length := length + 1;
      forall p
        ensures InSync(p) && AtRoot(p)
      {
        assert old(InSync(p)) && old(AtRoot(p));
      }
    }

    /** The recursion of `add`: one code unit per call, creating the missing nodes. */
    method AddFrom(token: Str, doc: Posting, node: Node, ghost path: Str, ghost result: Paths)
      requires Valid() && token != [] && path in nodes && nodes[path] == node && node in repr
      requires result == AddPath(paths, path, token, doc)
      modifies this`length, this`nodes, this`paths, this`kids, this`repr, repr
      ensures Valid() && length == old(length) + 1
      ensures repr >= old(repr) && forall o :: o in repr && o !in old(repr) ==> fresh(o)
      ensures paths == result
      decreases |token|
    {
      ghost var here := Child(path, token[0]);
      AddPathUnfolds(paths, path, token, doc, here, GrowPath(paths, here));
      var child := Grow(node, token[0], path);
      if |token| == 1 {
        Place(child, doc, here);
      } else {
        AddFrom(token[1..], doc, child, here, result);
      }
    }

    /** `add` */
    method Add(token: Str, doc: Posting)
      requires Valid() && token != []
      modifies this`length, this`nodes, this`paths, this`kids, this`repr, repr
      ensures Valid() && length == old(length) + 1
      ensures repr >= old(repr) && forall o :: o in repr && o !in old(repr) ==> fresh(o)
      ensures paths == AddPath(old(paths), [], token, doc)
      ensures Contents() == AddPosting(old(Contents()), token, doc)
    {
      ghost var paths0 := paths;
      assert InSync([]) && AtRoot([]);
      AddFrom(token, doc, root, [], AddPath(paths, [], token, doc));
      AddPathRefines(paths0, paths, token, doc);
    }

    /** The walk that `has`, `getNode` and `remove` share: the node that `token` spells, or null. */
    method Walk(token: Str) returns (node: Node?)
      requires Valid()
      ensures node == if token in nodes then nodes[token] else null
    {
      node := root;
      assert AtRoot([]) && token[..0] == [];
      for i := 0 to |token|
        invariant token[..i] in nodes && node == nodes[token[..i]]
      {
        assert Child(token[..i], token[i]) == token[..i + 1];
        HasChild(kids, token[..i], nodes, token[i]);
        assert InSync(token[..i]);
        if token[i] !in node.children {
          assert PrefixOf(token[..i + 1], token);
          return null;
        }
        node := node.children[token[i]];
      }
      assert token[..|token|] == token;
    }

    method Has(token: Str) returns (found: bool)
      requires Valid()
      ensures found <==> token != [] && token in nodes
    {
      if token == [] {
        return false;
      }
      var node := Walk(token);
      found := node != null;
    }

    /** `getNode(token).docs || {}` */
    method Get(token: Str) returns (docs: Docs)
      requires Valid()
      ensures docs == DocsOf(Contents(), token)
    {
      LiveAt(paths, token);
      if token == [] {
        assert AtRoot([]);
        return map[];
      }
      var node := Walk(token);
      assert InSync(token);
      docs := if node == null then map[] else node.docs;
    }

    method Count(token: Str) returns (n: nat)
      requires Valid()
      ensures n == |DocsOf(Contents(), token)|
    {
      var docs := Get(token);
      n := |docs|;
    }

    method Remove(token: Str, ref: Str)
      requires Valid()
      modifies this`paths, repr
      ensures Valid() && paths == RemovePath(old(paths), token, ref)
      ensures Contents() == RemovePosting(old(Contents()), token, ref)
    {
      LiveAt(paths, token);
      assert AtRoot([]);
      if token == [] {
        assert Contents() == RemovePosting(Contents(), token, ref);
        return;
      }
      var node := Walk(token);
      if node == null {
        assert Contents() == RemovePosting(Contents(), token, ref);
        return;
      }
      assert InSync(token);
      Unplace(node, ref, token);
      RemovePathRefines(old(paths), paths, token, ref);
    }

    /** `delete node.docs[ref]` */
    method Unplace(node: Node, ref: Str, ghost path: Str)
      requires Valid() && path != [] && path in nodes && nodes[path] == node
      modifies this`paths, node`docs
      ensures Valid()
      ensures path in old(paths) && paths == old(paths)[path := old(paths[path]) - {ref}]
    {
      assert InSync(path);
      forall p | p in nodes && p != path
        ensures nodes[p] != node
      {
        assert Apart(nodes, p, path);
      }
      node.docs := node.docs - {ref};
      paths := paths[path := node.docs];
      forall p
        ensures InSync(p) && AtRoot(p)
      {
        assert old(InSync(p)) && old(AtRoot(p));
      }
    }

    ghost function Below(token: Str): set<Str>
      reads this`nodes
    {
      set p | p in nodes && token <= p
    }

    lemma NothingBelow(token: Str)
      requires Valid() && token !in nodes
      ensures Expansion(Contents(), token) == {}
    {
      forall k | k in Contents()
        ensures !(token <= k)
      {
        assert InSync(k);
        assert k in nodes && !PrefixOf(token, k);
      }
    }

    lemma BelowChild(token: Str, key: CodeUnit)
      requires token in nodes
      ensures Below(token + [key]) < Below(token)
    {
      assert token in Below(token) && token !in Below(token + [key]);
    }

    /** Every live token longer than `token` goes through one of its children. */
    lemma NoOtherChild(token: Str)
      requires Valid() && token in nodes
      ensures token in kids && forall k :: k in Expansion(Contents(), token) && k != token ==> k[|token|] in kids[token]
    {
      forall k | k in Expansion(Contents(), token) && k != token
        ensures k[|token|] in kids[token]
      {
        HasChild(kids, token, nodes, k[|token|]);
        assert InSync(k);
        assert k in nodes && PrefixOf(Child(token, k[|token|]), k);
      }
    }

    /** `expand`: the node of the token again from the root, then every child in any order; what is
        found is pushed onto the one list that all calls share. */
    method Expand(token: Str, memo: seq<Str>) returns (out: seq<Str>)
      requires Valid()
      ensures Expanded(memo, out, Expansion(Contents(), token))
      decreases Below(token)
    {
      out := memo;
      if token == [] {
        return;
      }
      var node := Walk(token);
      if node == null {
        NothingBelow(token);
        return;
      }
      assert InSync(token);
      LiveAt(paths, token);
      NoOtherChild(token);
      if node.docs != map[] {
        out := out + [token];
      }
      var keys := node.children.Keys;
      while keys != {}
        invariant keys <= node.children.Keys
        invariant Expanded(memo, out, Reached(Contents(), token, keys))
        decreases keys
      {
        var key :| key in keys;
        HasChild(kids, token, nodes, key);
        BelowChild(token, key);
        ghost var before := out;
        out := Expand(token + [key], out);
        ReachedMore(Contents(), token, keys, key);
        ExpandedTwice(memo, before, out, Reached(Contents(), token, keys), Expansion(Contents(), token + [key]));
        keys := keys - {key};
      }
      assert Reached(Contents(), token, {}) == Expansion(Contents(), token);
    }
  }

  /** The expansion of `token` without what lies under the children `keys`. */
  ghost function Reached(posts: Postings, token: Str, keys: set<CodeUnit>): set<Str> {
    set k | k in Expansion(posts, token) && (k == token || k[|token|] !in keys)
  }

  lemma ReachedMore(posts: Postings, token: Str, keys: set<CodeUnit>, key: CodeUnit)
    requires token != [] && key in keys
    ensures Reached(posts, token, keys - {key}) == Reached(posts, token, keys) + Expansion(posts, token + [key])
    ensures Reached(posts, token, keys) !! Expansion(posts, token + [key])
  {
    forall k | k in posts && token <= k && k != token
      ensures token + [key] <= k <==> k[|token|] == key
    {
      assert k[..|token|] == token;
    }
    forall k | k in posts && token + [key] <= k
      ensures token <= k && k != token
    {
      assert k[..|token|] == (token + [key])[..|token|];
    }
  }

  /** `out` is `memo` followed by the tokens `found`, each once. */
  ghost predicate Expanded(memo: seq<Str>, out: seq<Str>, found: set<Str>) {
    && memo <= out
    && (forall k :: k in out[|memo|..] <==> k in found)
    && (forall i, j :: |memo| <= i < j < |out| ==> out[i] != out[j])
  }

  lemma ExpandedTwice(memo: seq<Str>, middle: seq<Str>, out: seq<Str>, first: set<Str>, second: set<Str>)
    requires Expanded(memo, middle, first) && Expanded(middle, out, second) && first !! second
    ensures Expanded(memo, out, first + second)
  {
    assert out[|memo|..] == middle[|memo|..] + out[|middle|..];
    forall i, j | |memo| <= i < j < |out|
      ensures out[i] != out[j]
    {
      if j < |middle| {
        assert middle[i] != middle[j];
      } else if i < |middle| {
        assert out[i] == middle[|memo|..][i - |memo|] && out[i] in first;
        assert out[j] == out[|middle|..][j - |middle|] && out[j] in second;
      }
    }
  }
}
