/**
 * The cluster -> locus -> gene record tree of a ClusterMap plot, and
 * `initialiseData` (src/clusterMap.js), which stamps the working copies and
 * back-references onto a cluster's loci and genes when the cluster first
 * enters the scene.
 *
 * The source's underscore-prefixed shadow fields are renamed, since Dafny
 * identifiers cannot begin with an underscore:
 *   _start -> workStart, _end -> workEnd, _offset -> offset,
 *   _flipped -> flipped, _cluster -> clusterRef, _locus -> locusRef.
 */
module ClusterData {
  import opened Wrappers

  type Uid = string

  class Gene {
    const uid: Uid
    var name: string
    // Back-references stamped by InitialiseData (non-owning).
    var locusRef: Uid
    var clusterRef: Uid

    constructor (uid: Uid, name: string)
      ensures this.uid == uid && this.name == name
    {
      this.uid := uid;
      this.name := name;
    }
  }

  class Locus {
    const uid: Uid
    var start: int
    var end: int
    var genes: seq<Gene>
    // Shadow state used by the drag, resize and flip gestures.
    var workStart: int
    var workEnd: int
    var offset: int
    var clusterRef: Uid
    var flipped: bool

    constructor (uid: Uid, start: int, end: int, genes: seq<Gene>)
      ensures this.uid == uid && this.start == start && this.end == end && this.genes == genes
    {
      this.uid := uid;
      this.start := start;
      this.end := end;
      this.genes := genes;
    }
  }

  class Cluster {
    const uid: Uid
    var name: string
    var loci: seq<Locus>

    constructor (uid: Uid, name: string, loci: seq<Locus>)
      ensures this.uid == uid && this.name == name && this.loci == loci
    {
      this.uid := uid;
      this.name := name;
      this.loci := loci;
    }
  }

  /** Every gene object listed by one of `loci`. */
  ghost function GenesOf(loci: seq<Locus>): set<Gene>
    reads loci`genes
  {
    set l, g | l in loci && g in l.genes :: g
  }

  /**
   * The uid of the LAST locus of `loci` that lists `g`, or None when none does.
   * Since the loops run in list order, this is the `_locus` a gene ends up
   * with when the same gene object is listed under several loci.
   */
  ghost function LastOwner(loci: seq<Locus>, g: Gene): (r: Option<Uid>)
    reads loci`genes
    ensures r.Some? <==> exists i :: 0 <= i < |loci| && g in loci[i].genes
  {
    if loci == [] then None
    else if g in loci[|loci| - 1].genes then Some(loci[|loci| - 1].uid)
    else LastOwner(loci[..|loci| - 1], g)
  }

  /** A gene that no later locus lists is owned by the locus that lists it. */
  lemma {:induction false} LastOwnerIsSoleOwner(loci: seq<Locus>, i: nat, g: Gene)
    requires i < |loci| && g in loci[i].genes
    requires forall j :: i < j < |loci| ==> g !in loci[j].genes
    ensures LastOwner(loci, g) == Some(loci[i].uid)
  {
    if i < |loci| - 1 {
      LastOwnerIsSoleOwner(loci[..|loci| - 1], i, g);
    }
  }

  /** The shadow state `initialiseData` gives one locus of the cluster `clusterUid`. */
  ghost predicate LocusInitialised(l: Locus, clusterUid: Uid)
    reads l
  {
    && l.workStart == l.start
    && l.workEnd == l.end
    && l.offset == 0
    && l.clusterRef == clusterUid
    && !l.flipped
  }

  /** The state `initialiseData` leaves a cluster's loci and genes in. */
  ghost predicate Initialised(c: Cluster)
    reads c, c.loci, GenesOf(c.loci)
  {
    && (forall l :: l in c.loci ==> LocusInitialised(l, c.uid))
    && (forall g :: g in GenesOf(c.loci) ==>
          g.clusterRef == c.uid && LastOwner(c.loci, g) == Some(g.locusRef))
  }

  /** No gene object is listed by two different positions of the locus list. */
  ghost predicate ListedOnce(c: Cluster)
    reads c, c.loci
  {
    forall i, j, g :: 0 <= i < j < |c.loci| && g in c.loci[i].genes ==> g !in c.loci[j].genes
  }

  /** The body of the outer forEach of initialiseData for one locus, before its genes. */
  method InitialiseLocus(locus: Locus, clusterUid: Uid)
    modifies locus`workStart, locus`workEnd, locus`offset, locus`clusterRef, locus`flipped
    ensures LocusInitialised(locus, clusterUid)
  {
    locus.workStart := locus.start;
    locus.workEnd := locus.end;
    locus.offset := 0;
    locus.clusterRef := clusterUid;
    locus.flipped := false;
  }

  /** The inner forEach of initialiseData: stamps both back-references on every gene of `locus`. */
  method StampGenes(locus: Locus, clusterUid: Uid)
    modifies locus.genes`locusRef, locus.genes`clusterRef
    ensures forall g :: g in locus.genes ==> g.locusRef == locus.uid && g.clusterRef == clusterUid
  {
    var genes := locus.genes;
    var k := 0;
    while k < |genes|
      invariant 0 <= k <= |genes|
      invariant forall g :: g in genes[..k] ==> g.locusRef == locus.uid && g.clusterRef == clusterUid
    {
      genes[k].locusRef := locus.uid;
      genes[k].clusterRef := clusterUid;
      k := k + 1;
    }
    assert genes[..k] == genes;
  }

  /**
   * The outer forEach of initialiseData over a locus list: every locus gets its
   * initial shadow state and every listed gene the uid of the last locus that
   * lists it (the owners are those of the entry state; no gene list is written).
   */
  method InitialiseLoci(loci: seq<Locus>, clusterUid: Uid)
    modifies loci`workStart, loci`workEnd, loci`offset, loci`clusterRef, loci`flipped
    modifies GenesOf(loci)`locusRef, GenesOf(loci)`clusterRef
    ensures forall l :: l in loci ==> LocusInitialised(l, clusterUid)
    ensures forall g :: g in old(GenesOf(loci)) ==>
      g.clusterRef == clusterUid && old(LastOwner(loci, g)) == Some(g.locusRef)
  {
    ghost var genes := GenesOf(loci);
    var i := 0;
    while i < |loci|
      invariant 0 <= i <= |loci|
      invariant forall l :: l in loci[..i] ==> LocusInitialised(l, clusterUid)
      invariant forall g :: g in genes && old(LastOwner(loci[..i], g)).Some? ==>
        g.locusRef == old(LastOwner(loci[..i], g)).value && g.clusterRef == clusterUid
    {
      var locus := loci[i];
      assert forall g :: g in locus.genes ==> g in genes;
      label before:
      InitialiseLocus(locus, clusterUid);
      StampGenes(locus, clusterUid);
      assert (loci[..i + 1])[..i] == loci[..i];
      forall g | g in genes && old(LastOwner(loci[..i + 1], g)).Some?
        ensures g.locusRef == old(LastOwner(loci[..i + 1], g)).value && g.clusterRef == clusterUid
      {
        if g !in locus.genes {
          assert g.locusRef == old@before(g.locusRef) && g.clusterRef == old@before(g.clusterRef);
        }
      }
      assert loci[..i + 1] == loci[..i] + [locus];
      i := i + 1;
    }
    assert loci[..i] == loci;
  }

  /**
   * initialiseData(cluster): copies each locus's start/end into the working
   * copies, resets the offset and the flip, and stamps the back-references of
   * loci and genes. Only those shadow fields are written (the frame), and the
   * routine is idempotent: on a cluster already initialised it changes nothing.
   */
  method InitialiseData(cluster: Cluster)
    modifies cluster.loci`workStart, cluster.loci`workEnd, cluster.loci`offset
    modifies cluster.loci`clusterRef, cluster.loci`flipped
    modifies GenesOf(cluster.loci)`locusRef, GenesOf(cluster.loci)`clusterRef
    ensures Initialised(cluster)
    ensures ListedOnce(cluster) ==>
      forall i, g :: 0 <= i < |cluster.loci| && g in cluster.loci[i].genes ==>
        g.locusRef == cluster.loci[i].uid && g.clusterRef == cluster.uid
    ensures old(Initialised(cluster)) ==>
      (forall l :: l in cluster.loci ==> unchanged(l)) &&
      (forall g :: g in GenesOf(cluster.loci) ==> unchanged(g))
  {
    ghost var genes := GenesOf(cluster.loci);
    InitialiseLoci(cluster.loci, cluster.uid);
    forall g | g in genes
      ensures old(LastOwner(cluster.loci, g)) == LastOwner(cluster.loci, g)
    {
    }
    assert GenesOf(cluster.loci) == genes;
    forall i, g | ListedOnce(cluster) && 0 <= i < |cluster.loci| && g in cluster.loci[i].genes
      ensures g.locusRef == cluster.loci[i].uid && g.clusterRef == cluster.uid
    {
      OwnerStamped(cluster, i, g);
    }
    if old(Initialised(cluster)) {
      // Every shadow field already held the value it is given again.
      forall l | l in cluster.loci
        ensures unchanged(l)
      {
        assert old(LocusInitialised(l, cluster.uid));
      }
    }
  }

  /**
   * When every gene object is listed by one locus only, an initialised cluster
   * gives each gene the uid of the locus that holds it and of the cluster.
   */
  lemma OwnerStamped(c: Cluster, i: nat, g: Gene)
    requires Initialised(c) && ListedOnce(c)
    requires i < |c.loci| && g in c.loci[i].genes
    ensures g.locusRef == c.loci[i].uid && g.clusterRef == c.uid
  {
    assert g in GenesOf(c.loci);
    LastOwnerIsSoleOwner(c.loci, i, g);
  }
}
