/**
 * getHiddenGeneGroups (src/clusterMap.js): the colour groups the legend marks
 * as hidden, i.e. the groups of the colour scale's domain that no rendered
 * gene node shows. The DOM scan and the scale lookups become parameters: the
 * domain is a sequence of group keys, and each gene node contributes its
 * `display` attribute and its group.
 */
module HiddenGroups {
  import opened Wrappers

  /**
   * One rendered gene node: the value of its `display` attribute (None when
   * the attribute is unset) and the colour group of its gene (None for null).
   */
  datatype GeneNode<K> = GeneNode(display: Option<string>, group: Option<K>)

  /** The node is displayed inline and its gene belongs to a group. */
  predicate ShowsGroup<K>(n: GeneNode<K>)
  {
    n.display == Some("inline") && n.group.Some?
  }

  /** The groups that at least one node shows. */
  function ShownGroups<K(==,!new)>(nodes: seq<GeneNode<K>>): set<K>
  {
    set n | n in nodes && ShowsGroup(n) :: n.group.value
  }

  /** `s` without the entries in `drop`, order and repetitions kept. */
  function Exclude<K(==,!new)>(s: seq<K>, drop: set<K>): (r: seq<K>)
    ensures |r| <= |s|
    ensures forall y :: y in r <==> y in s && y !in drop
  {
    if s == [] then []
    else (if s[0] in drop then [] else [s[0]]) + Exclude(s[1..], drop)
  }

  /** `a` is `b` with some entries removed, the rest in the same order. */
  predicate IsSubsequence<K(==,!new)>(a: seq<K>, b: seq<K>)
    decreases |b|
  {
    if a == [] then true
    else if b == [] then false
    else if a[0] == b[0] then IsSubsequence(a[1..], b[1..])
    else IsSubsequence(a, b[1..])
  }

  /** The declarative reading of getHiddenGeneGroups. */
  function DeclaredHidden<K(==,!new)>(domain: seq<K>, nodes: seq<GeneNode<K>>): seq<K>
  {
    if nodes == [] then [] else Exclude(domain, ShownGroups(nodes))
  }

  lemma {:induction false} ExcludeIsSubsequence<K(!new)>(s: seq<K>, drop: set<K>)
    ensures IsSubsequence(Exclude(s, drop), s)
  {
    if s != [] {
      ExcludeIsSubsequence(s[1..], drop);
      if s[0] !in drop {
        assert Exclude(s, drop) == [s[0]] + Exclude(s[1..], drop);
      } else {
        var r := Exclude(s, drop);
        assert r == Exclude(s[1..], drop);
        if r != [] {
          assert r[0] in r && r[0] != s[0];
        }
      }
    }
  }

  /** Each entry kept keeps all its occurrences; each dropped entry loses all of them. */
  lemma {:induction false} ExcludeCounts<K(!new)>(s: seq<K>, drop: set<K>, y: K)
    ensures multiset(Exclude(s, drop))[y] == if y in drop then 0 else multiset(s)[y]
  {
    if s != [] {
      ExcludeCounts(s[1..], drop, y);
      assert s == [s[0]] + s[1..];
    }
  }

  /** Dropping entries the sequence does not hold changes nothing. */
  lemma {:induction false} ExcludeDisjoint<K(!new)>(s: seq<K>, drop: set<K>)
    requires forall y :: y in s ==> y !in drop
    ensures Exclude(s, drop) == s
  {
    if s != [] {
      ExcludeDisjoint(s[1..], drop);
    }
  }

  /** Filtering twice is filtering once by both sets. */
  lemma {:induction false} ExcludeTwice<K(!new)>(s: seq<K>, a: set<K>, b: set<K>)
    ensures Exclude(Exclude(s, a), b) == Exclude(s, a + b)
  {
    if s != [] {
      ExcludeTwice(s[1..], a, b);
      var once := Exclude(s[1..], a);
      if s[0] !in a {
        assert Exclude(s, a) == [s[0]] + once;
        assert ([s[0]] + once)[0] == s[0] && ([s[0]] + once)[1..] == once;
      } else {
        assert Exclude(s, a) == once;
      }
    }
  }

  /** One more node adds its group to the shown groups exactly when it shows one. */
  lemma ShownGroupsSnoc<K(!new)>(nodes: seq<GeneNode<K>>, n: GeneNode<K>)
    ensures ShownGroups(nodes + [n]) ==
      if ShowsGroup(n) then ShownGroups(nodes) + {n.group.value} else ShownGroups(nodes)
  {
  }

  /**
   * getHiddenGeneGroups(): no gene node at all gives no hidden group;
   * otherwise the domain, filtered in place each time a node displayed inline
   * shows a group still listed, ends up as the domain without every shown
   * group, in domain order.
   */
  method GetHiddenGeneGroups<K(==,!new)>(domain: seq<K>, nodes: seq<GeneNode<K>>) returns (hidden: seq<K>)
    ensures hidden == DeclaredHidden(domain, nodes)
    ensures nodes == [] ==> hidden == []
    ensures nodes != [] ==> forall g :: g in hidden <==>
      g in domain && forall n :: n in nodes && ShowsGroup(n) ==> n.group.value != g
  {
    if |nodes| == 0 {
      hidden := [];
    } else {
      hidden := domain;
      ExcludeDisjoint(domain, {});
      assert ShownGroups(nodes[..0]) == {};
      var i := 0;
      while i < |nodes|
        invariant 0 <= i <= |nodes|
        invariant hidden == Exclude(domain, ShownGroups(nodes[..i]))
      {
        var node := nodes[i];
        ShownGroupsSnoc(nodes[..i], node);
        assert nodes[..i + 1] == nodes[..i] + [node];
        if node.display == Some("inline") && node.group.Some? {
          var group := node.group.value;
          ExcludeTwice(domain, ShownGroups(nodes[..i]), {group});
          if group in hidden {
            hidden := Exclude(hidden, {group});
          } else {
            ExcludeDisjoint(hidden, {group});
          }
        }
        i := i + 1;
      }
      assert nodes[..i] == nodes;
    }
  }

  /** The hidden groups keep the domain's order. */
  lemma HiddenGroupsInDomainOrder<K(!new)>(domain: seq<K>, nodes: seq<GeneNode<K>>)
    ensures IsSubsequence(DeclaredHidden(domain, nodes), domain)
  {
    if nodes != [] {
      ExcludeIsSubsequence(domain, ShownGroups(nodes));
    }
  }

  /**
   * A node not displayed inline, or without a group, hides nothing: adding
   * it to a non-empty scan changes no result.
   */
  lemma NonShowingNodeIgnored<K(!new)>(domain: seq<K>, before: seq<GeneNode<K>>, n: GeneNode<K>,
                                 after: seq<GeneNode<K>>)
    requires !ShowsGroup(n)
    requires before + after != []
    ensures DeclaredHidden(domain, before + [n] + after) == DeclaredHidden(domain, before + after)
  {
    var with, without := before + [n] + after, before + after;
    assert forall m :: m in with <==> m in without || m == n;
    assert ShownGroups(with) == ShownGroups(without);
  }

  /** Domain {A, B, C} with visible genes only in A and C: exactly B is hidden. */
  lemma HiddenGroupsExample()
    ensures DeclaredHidden(["A", "B", "C"],
                         [GeneNode(Some("inline"), Some("A")),
                          GeneNode(Some("none"), Some("B")),
                          GeneNode(Some("inline"), Some("C"))]) == ["B"]
  {
    var nodes := [GeneNode(Some("inline"), Some("A")),
                  GeneNode(Some("none"), Some("B")),
                  GeneNode(Some("inline"), Some("C"))];
    assert ShownGroups(nodes) == {"A", "C"} by {
      assert nodes[0] in nodes && nodes[2] in nodes;
    }
  }
}
