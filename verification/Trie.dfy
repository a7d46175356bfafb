/** The byte trie over path prefixes (`internal/routing/trie.go`). A route is named by its position
    in the config, which stands for the pointer the source stores. */
module PrefixTrie {
  import opened Foundations

  type RouteId = nat

  // ---- What a trie means: strings to route lists ----

  type Contents = map<Bytes, seq<RouteId>>

  function Stored(c: Contents, s: Bytes): seq<RouteId> {
    if s in c then c[s] else []
  }

  /** The routes that a log of inserts registered for `s`, in insertion order. */
  function Registered(log: seq<(Bytes, RouteId)>, s: Bytes): seq<RouteId> {
    if log == [] then []
    else
      var last := log[|log| - 1];
      Registered(log[..|log| - 1], s) + if last.0 == s then [last.1] else []
  }

  datatype Offer = Offer(routes: seq<RouteId>, depth: nat)

  /** What a traversal of `path` from `depth` down may offer: deepest first. */
  function Offers(c: Contents, path: Bytes, depth: nat): seq<Offer>
    requires depth <= |path|
    decreases |path| - depth
  {
    var here := Stored(c, path[..depth]);
    (if depth < |path| then Offers(c, path, depth + 1) else [])
    + (if here != [] then [Offer(here, depth)] else [])
  }

  /** The offers are exactly the prefixes of the path that have routes, each with its own length
      as depth, in strictly decreasing depth. */
  lemma {:induction false} OffersAreRegisteredPrefixes(c: Contents, path: Bytes, depth: nat)
    requires depth <= |path|
    ensures forall o :: o in Offers(c, path, depth)
              <==> depth <= o.depth <= |path| && o.routes == Stored(c, path[..o.depth]) && o.routes != []
    ensures forall i, j | 0 <= i < j < |Offers(c, path, depth)| ::
              Offers(c, path, depth)[i].depth > Offers(c, path, depth)[j].depth
    decreases |path| - depth
  {
    if depth < |path| {
      OffersAreRegisteredPrefixes(c, path, depth + 1);
      var deeper := Offers(c, path, depth + 1);
      forall i | 0 <= i < |deeper| ensures deeper[i].depth > depth {
        assert deeper[i] in deeper;
      }
    }
  }

  /** The callback of `match`: its boolean together with what it captures when it accepts. */
  type Yield<T> = Offer -> Option<T>

  function FirstAccepted<T>(offers: seq<Offer>, callback: Yield<T>): Option<T> {
    if offers == [] then None
    else if callback(offers[0]).Some? then callback(offers[0])
    else FirstAccepted(offers[1..], callback)
  }

  /** The callback is called on `offers` in order, until it accepts. */
  ghost predicate StopsAtFirstAccept<T>(calls: seq<Offer>, found: Option<T>, offers: seq<Offer>, callback: Yield<T>) {
    && calls <= offers
    && (forall i | 0 <= i < |calls| - 1 :: callback(calls[i]) == None)
    && (found == None ==> calls == offers && (calls != [] ==> callback(calls[|calls| - 1]) == None))
    && (found != None ==> calls != [] && callback(calls[|calls| - 1]) == found)
  }

  lemma {:induction false} AppendOffer<T>(offers: seq<Offer>, last: Offer, callback: Yield<T>)
    ensures FirstAccepted(offers + [last], callback)
         == if FirstAccepted(offers, callback).Some? then FirstAccepted(offers, callback) else callback(last)
  {
    if offers == [] {
      assert offers + [last] == [last];
    } else {
      assert (offers + [last])[1..] == offers[1..] + [last];
      AppendOffer(offers[1..], last, callback);
    }
  }

  // ---- The heap structure ----

  class TrieNode {
    const children: array<TrieNode?>
    var routes: seq<RouteId>
    /** The string this node was allocated for. */
    ghost const at: Bytes

    constructor (ghost at: Bytes)
      ensures fresh(children) && children.Length == 256 && routes == [] && this.at == at
      ensures forall i | 0 <= i < 256 :: children[i] == null
    {
      children := new TrieNode?[256](_ => null);
      routes, this.at := [], at;
    }

    /** Recursion along `path`; `calls` records the callback's invocations. */
    method Match<T>(path: Bytes, depth: nat, callback: Yield<T>, ghost trie: Trie)
      returns (found: Option<T>, ghost calls: seq<Offer>)
      requires trie.Valid() && depth <= |path|
      requires path[..depth] in trie.nodes && trie.nodes[path[..depth]] == this
      decreases |path| - depth
      ensures found == FirstAccepted(Offers(trie.contents, path, depth), callback)
      ensures StopsAtFirstAccept(calls, found, Offers(trie.contents, path, depth), callback)
    {
      found, calls := None, [];
      if depth < |path| {
        assert path[..depth] + [path[depth]] == path[..depth + 1];
        assert trie.NodeOk(path[..depth]) && trie.Linked(path[..depth], path[depth]);
        var child := children[path[depth] as int];
        if child != null {
          found, calls := child.Match(path, depth + 1, callback, trie);
        } else {
          trie.NothingBelow(path, depth + 1);
        }
        AppendOffers(trie.contents, path, depth, callback);
        if found.Some? { return; }
      }
      assert trie.NodeOk(path[..depth]) && trie.RoutesOk(path[..depth]);
      if |routes| > 0 {
        found, calls := callback(Offer(routes, depth)), calls + [Offer(routes, depth)];
      }
    }
  }

  /** The node at `depth` is asked when no deeper one accepts. */
  lemma AppendOffers<T>(c: Contents, path: Bytes, depth: nat, callback: Yield<T>)
    requires depth <= |path|
    ensures var deeper := if depth < |path| then FirstAccepted(Offers(c, path, depth + 1), callback) else None;
            FirstAccepted(Offers(c, path, depth), callback) ==
            if deeper.Some? then deeper
            else if Stored(c, path[..depth]) == [] then None
            else callback(Offer(Stored(c, path[..depth]), depth))
  {
    var deeper := if depth < |path| then Offers(c, path, depth + 1) else [];
    if Stored(c, path[..depth]) != [] {
      AppendOffer(deeper, Offer(Stored(c, path[..depth]), depth), callback);
    } else {
      assert Offers(c, path, depth) == deeper;
    }
  }

  ghost predicate IsPrefixIn(keys: set<Bytes>, s: Bytes, k: nat)
    requires k <= |s|
  {
    s[..k] in keys
  }

  ghost predicate IsPrefixClosed(keys: set<Bytes>) {
    forall s: Bytes, k: nat {:trigger IsPrefixIn(keys, s, k)} | s in keys && k <= |s| :: IsPrefixIn(keys, s, k)
  }

  /** A prefix-closed set of strings stays closed under a new leaf. */
  lemma NewLeafIsClosed(keys: set<Bytes>, at: Bytes, b: Byte, s: Bytes, k: nat)
    requires IsPrefixClosed(keys) && at in keys && k <= |s| && (s in keys || s == at + [b])
    ensures s[..k] in keys || s[..k] == at + [b]
  {
    if s in keys {
      assert IsPrefixIn(keys, s, k);
    } else if k <= |at| {
      assert IsPrefixIn(keys, at, k) && s[..k] == at[..k];
    } else {
      assert s[..k] == s;
    }
  }

  /** The new leaf has a parent and no children. */
  lemma NewLeafLinks(keys: set<Bytes>, at: Bytes, b: Byte, s: Bytes, c: Byte)
    requires IsPrefixClosed(keys) && at in keys && at + [b] !in keys
    ensures s == at + [b] ==> s + [c] !in keys && s + [c] != s
    ensures s + [c] == at + [b] <==> s == at && c == b
  {
    var grandchild, below := at + [b] + [c], at + [b];
    assert grandchild in keys ==> IsPrefixIn(keys, grandchild, |below|);
    assert grandchild[..|below|] == below;
    if s + [c] == below {
      assert s == (s + [c])[..|s|] == below[..|at|] == at;
      assert c == (s + [c])[|s|] == below[|at|];
    }
  }

  class Trie {
    const root: TrieNode
    /** The meaning: every string that reaches a node, with the routes stored there. */
    ghost var contents: Contents
    /** Every insert so far. */
    ghost var log: seq<(Bytes, RouteId)>
    /** The node reached by each string that reaches one. */
    ghost var nodes: map<Bytes, TrieNode>
    /** Whose child array each array is. */
    ghost var owner: map<array<TrieNode?>, Bytes>
    ghost var Repr: set<object>

    ghost predicate Linked(s: Bytes, b: Byte)
      requires s in nodes && nodes[s].children.Length == 256
      reads this, nodes[s].children
    {
      nodes[s].children[b as int] == if s + [b] in nodes then nodes[s + [b]] else null
    }

    ghost predicate NodeOk(s: Bytes)
      requires s in nodes
      reads this
    {
      && nodes[s].at == s
      && nodes[s].children in owner && owner[nodes[s].children] == s
      && nodes[s].children.Length == 256
      && nodes[s] in Repr && nodes[s].children in Repr
      && s in contents
    }

    ghost predicate RoutesOk(s: Bytes)
      requires s in nodes && s in contents
      reads this, nodes[s]
    {
      nodes[s].routes == contents[s]
    }

    ghost predicate Closed(s: Bytes, k: nat)
      requires k <= |s|
      reads this
    {
      s[..k] in nodes
    }

    ghost predicate NodesOk()
      reads this, Repr
    {
      && this in Repr && [] in nodes && nodes[[]] == root
      && contents.Keys == nodes.Keys
      && (forall s {:trigger NodeOk(s)} | s in nodes :: NodeOk(s))
      && (forall s {:trigger RoutesOk(s)} | s in nodes :: NodeOk(s) && RoutesOk(s))
      && (forall s: Bytes, k: nat {:trigger Closed(s, k)} | s in nodes && k <= |s| :: Closed(s, k))
    }

    /** The nodes form a tree in which nothing is shared, and child pointers follow the strings. */
    ghost predicate Shape()
      reads this, Repr
    {
      && NodesOk()
      && (forall s, b: Byte {:trigger Linked(s, b)} | s in nodes :: NodeOk(s) && Linked(s, b))
    }

    /** As `Shape`, but for one pointer that is still missing. */
    ghost predicate AlmostShape(at: Bytes, b: Byte)
      reads this, Repr
    {
      && NodesOk()
      && (forall s, c: Byte {:trigger Linked(s, c)} | s in nodes && (s != at || c != b) :: NodeOk(s) && Linked(s, c))
    }

    /** The node reached by `s` holds exactly the routes inserted for `s`, in insertion order. */
    ghost predicate Faithful(s: Bytes)
      reads this
    {
      Stored(contents, s) == Registered(log, s)
    }

    ghost predicate Valid()
      reads this, Repr
    {
      Shape() && forall s {:trigger Faithful(s)} :: Faithful(s)
    }

    constructor ()
      ensures Valid() && fresh(Repr) && log == [] && forall s :: Stored(contents, s) == []
    {
      var top := new TrieNode([]);
      root := top;
      nodes, owner, contents, log := map[[] := top], map[top.children := []], map[[] := []], [];
      Repr := {this, top, top.children};
    }

    method Insert(prefix: Bytes, route: RouteId)
      requires Valid()
      modifies Repr
      ensures Valid() && fresh(Repr - old(Repr))
      ensures log == old(log) + [(prefix, route)]
      ensures Stored(contents, prefix) == old(Stored(contents, prefix)) + [route]
      ensures forall s | s != prefix :: Stored(contents, s) == old(Stored(contents, s))
    {
      var node := root;
      for i := 0 to |prefix|
        invariant Shape() && log == old(log) && old(Repr) <= Repr && fresh(Repr - old(Repr))
        invariant prefix[..i] in nodes && nodes[prefix[..i]] == node
        invariant forall s :: Stored(contents, s) == old(Stored(contents, s))
      {
        assert prefix[..i] + [prefix[i]] == prefix[..i + 1];
        assert NodeOk(prefix[..i]);
        node := Step(node, prefix[i], prefix[..i]);
      }
      assert prefix[..|prefix|] == prefix;
      assert NodeOk(prefix);
      forall s ensures Faithful(s) { assert old(Faithful(s)); }
      Append(node, prefix, route);
    }

    /** Store the route at the node the walk ended in. */
    method Append(node: TrieNode, ghost prefix: Bytes, route: RouteId)
      requires Valid() && prefix in nodes && nodes[prefix] == node
      modifies node`routes, this`log, this`contents
      ensures Valid() && log == old(log) + [(prefix, route)]
      ensures Stored(contents, prefix) == old(Stored(contents, prefix)) + [route]
      ensures forall s | s != prefix :: Stored(contents, s) == old(Stored(contents, s))
    {
      assert NodeOk(prefix) && RoutesOk(prefix);
      node.routes := node.routes + [route];
      contents := contents[prefix := node.routes];
      log := log + [(prefix, route)];
      assert log[..|log| - 1] == old(log);
      forall s | s in nodes ensures NodeOk(s) { assert old(NodeOk(s)); }
      forall s | s in nodes ensures RoutesOk(s) { assert old(NodeOk(s)) && old(RoutesOk(s)); }
      forall s: Bytes, k: nat | s in nodes && k <= |s| ensures Closed(s, k) { assert old(Closed(s, k)); }
      forall s, b: Byte | s in nodes ensures Linked(s, b) { assert old(NodeOk(s)) && old(Linked(s, b)); }
      forall s ensures Faithful(s) { assert old(Faithful(s)); }
    }

    /** The child of `node` for `b`, allocated when missing. */
    method Step(node: TrieNode, b: Byte, ghost at: Bytes) returns (child: TrieNode)
      requires Shape() && at in nodes && nodes[at] == node
      modifies this`nodes, this`owner, this`Repr, this`contents, node.children
      ensures Shape() && old(Repr) <= Repr && fresh(Repr - old(Repr))
      ensures at + [b] in nodes && nodes[at + [b]] == child
      ensures forall s :: Stored(contents, s) == old(Stored(contents, s))
    {
      assert NodeOk(at) && Linked(at, b);
      var next := node.children[b as int];
      if next == null {
        next := AddChild(node, b, at);
      }
      child := next;
    }

    /** Hang a new empty node below `node`, the one for the string `at`. */
    method AddChild(node: TrieNode, b: Byte, ghost at: Bytes) returns (child: TrieNode)
      requires Shape() && at in nodes && nodes[at] == node && at + [b] !in nodes
      modifies this`nodes, this`owner, this`Repr, this`contents, node.children
      ensures Shape() && fresh(child) && nodes == old(nodes)[at + [b] := child]
      ensures fresh(child.children) && Repr == old(Repr) + {child, child.children}
      ensures contents == old(contents)[at + [b] := []]
    {
      child := new TrieNode(at + [b]);
      assert NodeOk(at);
      Register(child, at, b);
      Attach(node, b, at, child);
    }

    /** Set the missing pointer. */
    method Attach(node: TrieNode, b: Byte, ghost at: Bytes, child: TrieNode)
      requires AlmostShape(at, b) && at in nodes && nodes[at] == node && NodeOk(at)
      requires at + [b] in nodes && nodes[at + [b]] == child
      modifies node.children
      ensures Shape()
    {
      node.children[b as int] := child;
      forall s | s in nodes ensures NodeOk(s) { assert old(NodeOk(s)); }
      forall s | s in nodes ensures RoutesOk(s) { assert old(NodeOk(s) && RoutesOk(s)); }
      forall s: Bytes, k: nat | s in nodes && k <= |s| ensures Closed(s, k) { assert old(Closed(s, k)); }
      forall s, c: Byte | s in nodes ensures Linked(s, c) {
        if s != at || c != b { assert old(NodeOk(s) && Linked(s, c)); }
      }
    }

    /** Let the ghost state know a new leaf, before its parent points to it. */
    ghost method Register(child: TrieNode, at: Bytes, b: Byte)
      requires Shape() && at in nodes && at + [b] !in nodes && child !in Repr && child.children !in Repr
      requires child.at == at + [b] && child.routes == [] && child.children.Length == 256
      requires forall i | 0 <= i < 256 :: child.children[i] == null
      requires child.children !in owner
      modifies this`nodes, this`owner, this`Repr, this`contents
      ensures AlmostShape(at, b) && nodes == old(nodes)[at + [b] := child]
      ensures Repr == old(Repr) + {child, child.children} && contents == old(contents)[at + [b] := []]
    {
      var below, keys := at + [b], nodes.Keys;
      forall t: Bytes, k: nat | t in keys && k <= |t| ensures IsPrefixIn(keys, t, k) { assert Closed(t, k); }
      nodes, owner := nodes[below := child], owner[child.children := below];
      contents, Repr := contents[below := []], Repr + {child, child.children};
      forall s | s in nodes ensures NodeOk(s) { assert s in keys ==> old(NodeOk(s)); }
      forall s | s in nodes ensures RoutesOk(s) { assert s in keys ==> old(NodeOk(s) && RoutesOk(s)); }
      forall s: Bytes, k: nat | s in nodes && k <= |s| ensures Closed(s, k) { NewLeafIsClosed(keys, at, b, s, k); }
      forall s, c: Byte | s in nodes && (s != at || c != b) ensures Linked(s, c) {
        NewLeafLinks(keys, at, b, s, c);
        assert s in keys ==> old(NodeOk(s) && Linked(s, c));
      }
    }

    /** Where the path leaves the trie, nothing is stored further down. */
    lemma {:induction false} NothingBelow(path: Bytes, depth: nat)
      requires Shape() && depth <= |path| && path[..depth] !in nodes
      decreases |path| - depth
      ensures Offers(contents, path, depth) == []
    {
      if depth < |path| {
        assert path[..depth + 1][..depth] == path[..depth];
        assert path[..depth + 1] in nodes ==> Closed(path[..depth + 1], depth);
        NothingBelow(path, depth + 1);
      }
    }

    /** `nodes` is no free invention: it holds exactly what following child pointers reaches. */
    ghost function Follow(s: Bytes): TrieNode?
      requires Shape()
      reads this, Repr
    {
      if s == [] then root
      else
        var parent := Follow(s[..|s| - 1]);
        if parent == null || parent.at !in nodes || nodes[parent.at] != parent then null
        else
          assert NodeOk(parent.at);
          parent.children[s[|s| - 1] as int]
    }

    method Match<T>(path: Bytes, callback: Yield<T>) returns (found: Option<T>, ghost calls: seq<Offer>)
      requires Valid()
      ensures found == FirstAccepted(Offers(contents, path, 0), callback)
      ensures StopsAtFirstAccept(calls, found, Offers(contents, path, 0), callback)
    {
      found, calls := root.Match(path, 0, callback, this);
    }
  }

  lemma NothingIsShared(trie: Trie, s: Bytes, t: Bytes)
    requires trie.Shape() && s in trie.nodes && t in trie.nodes && s != t
    ensures trie.nodes[s] != trie.nodes[t] && trie.nodes[s].children != trie.nodes[t].children
  {
    assert trie.NodeOk(s) && trie.NodeOk(t);
  }

  lemma {:induction false} FollowReachesNodes(trie: Trie, s: Bytes)
    requires trie.Shape()
    ensures trie.Follow(s) == if s in trie.nodes then trie.nodes[s] else null
  {
    if s != [] {
      var parent, b := s[..|s| - 1], s[|s| - 1];
      assert parent + [b] == s && s[..|parent|] == parent;
      FollowReachesNodes(trie, parent);
      if parent in trie.nodes { assert trie.NodeOk(parent) && trie.Linked(parent, b); }
      if s in trie.nodes { assert trie.Closed(s, |parent|); }
    }
  }
}
