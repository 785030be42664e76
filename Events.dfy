/** The Event class: it holds the entries of an edep-sim file, a cursor
    over them, and for the current entry the vertex, the trajectories
    linked into a forest, the deposits credited to their tracks and the
    summary built from the vertex particles. */
module Events {
  import opened Wrappers
  import opened Forest
  import opened Response
  import opened Tracks
  import opened Descendants
  import opened Summary
  import opened Reaction
  import opened Cursor

  /** A primary vertex: its reaction string, its cross section and its
      outgoing particles. */
  datatype Vertex = Vertex(reaction: string, crossSection: real, particles: seq<Particle>)

  /** What the file stores for one entry: the primary vertices, the
      trajectories and the energy deposits of the detector segment. */
  datatype EventRecord = EventRecord(primaries: seq<Vertex>, trajectories: seq<Trajectory>, depos: seq<Deposit>)

  /** The simulation's guarantees about an entry: parent links form a forest
      and every deposit names a track of the entry as first contributor. */
  predicate WellFormed(e: EventRecord) {
    Acyclic(Parents(e.trajectories)) && DepositsOwned(e.depos, |e.trajectories|)
  }

  /** How far FillEnergyInfo gets: the first particle whose track id is
      past the last track (IndexError), or the number of particles. */
  function FirstOutOfRange(ps: seq<Particle>, nTracks: nat): (k: nat)
    ensures k <= |ps| && ParticlesInRange(ps[..k], nTracks)
    ensures k < |ps| ==> ps[k].trackId >= nTracks
    ensures k == |ps| <==> ParticlesInRange(ps, nTracks)
  {
    if ps == [] then 0
    else
      var k := FirstOutOfRange(ps[..|ps| - 1], nTracks);
      assert ps[..|ps| - 1][..k] == ps[..k];
      if k < |ps| - 1 then k
      else if ps[|ps| - 1].trackId < nTracks then
        assert ps[..|ps|] == ps;
        |ps|
      else |ps| - 1
  }

  /** The indices among the first n trajectories of primary neutrons, in order. */
  function RootNeutrons(trajs: seq<Trajectory>, n: nat): (ns: seq<nat>)
    requires n <= |trajs|
    ensures forall k :: 0 <= k < |ns| ==> ns[k] < n && trajs[ns[k]].pdg == 2112 && trajs[ns[k]].parentId == -1
    ensures forall i :: 0 <= i < n && trajs[i].pdg == 2112 && trajs[i].parentId == -1 ==> i in ns
    ensures forall a, b :: 0 <= a < b < |ns| ==> ns[a] < ns[b]
  {
    if n == 0 then []
    else
      var ns := RootNeutrons(trajs, n - 1);
      if trajs[n - 1].pdg == 2112 && trajs[n - 1].parentId == -1 then ns + [n - 1] else ns
  }

  /** The first loop of ReadTracks: n tracks, each empty and its own ancestor. */
  method UnlinkedTracks(n: nat) returns (ts: seq<TrackState>)
    ensures |ts| == n && forall t :: 0 <= t < n ==> ts[t] == TrackState(Zero, 0.0, [], [], t)
  {
    ts := [];
    var i := 0;
    while i < n
      invariant i <= n && |ts| == i
      invariant forall t :: 0 <= t < i ==> ts[t] == Unlinked(t)
    {
      ts := ts + [Unlinked(i)];
      i := i + 1;
    }
  }

  class Event {
    const entries: seq<EventRecord>
    var currentEntry: nat
    var vertex: Option<Vertex>
    var trajectories: seq<Trajectory>
    var depos: seq<Deposit>
    var tracks: seq<TrackState>
    var info: Info
    /** Whether ReadTracks has run: the source creates the track list there,
        so before the first Jump there is none to read. */
    ghost var tracksRead: bool

    /** The file has entries, all well formed, and the cursor is on one. */
    predicate Valid()
      reads this
    {
      |entries| > 0 && currentEntry < |entries| &&
      (forall e :: e in entries ==> WellFormed(e)) &&
      WellShaped(info)
    }

    /** The tracks are those of the trajectories, each listing its daughters. */
    predicate TracksLinked()
      reads this
    {
      |tracks| == |trajectories| && Acyclic(Parents(trajectories)) &&
      forall i :: 0 <= i < |tracks| ==> tracks[i].children == ChildrenOf(Parents(trajectories), i, |tracks|)
    }

    /** Opens the file on its first entry; nothing is read until a Jump. */
    constructor (es: seq<EventRecord>)
      requires |es| > 0 && forall e :: e in es ==> WellFormed(e)
      ensures entries == es && currentEntry == 0 && vertex == None
      ensures trajectories == [] && depos == [] && tracks == [] && !tracksRead
      ensures Valid()
    {
      entries := es;
      currentEntry := 0;
      vertex := None;
      trajectories := [];
      depos := [];
      tracks := [];
      info := EmptyInfo(0, 0.0, 0, 0);
      tracksRead := false;
    }

    /** A GENIE entry has one primary vertex; otherwise the vertex read
        before stays in place. */
    method ReadVertex(primaries: seq<Vertex>)
      modifies this`vertex
      ensures |primaries| == 1 ==> vertex == Some(primaries[0])
      ensures |primaries| != 1 ==> vertex == old(vertex)
    {
      if |primaries| != 1 {
        return;
      }
      vertex := Some(primaries[0]);
    }

    /** Sets every track up empty and its own ancestor, then appends each
        non-primary track to its parent's daughters and walks the parent
        links up to set its ancestor to the primary track above it. */
    method ReadTracks(trajs: seq<Trajectory>)
      requires Acyclic(Parents(trajs))
      modifies this`trajectories, this`tracks, this`tracksRead
      ensures trajectories == trajs && tracks == Linked(Parents(trajs))
      ensures TracksLinked() && tracksRead
    {
      trajectories := trajs;
      var parents := Parents(trajs);
      var n := |trajs|;
      tracks := UnlinkedTracks(n);
      var i := 0;
      LinkStart(parents, tracks);
      while i < n
        invariant i <= n && LinkedPrefix(parents, tracks, i, -1) && trajectories == trajs
      {
        var parId := trajs[i].parentId;
        if parId == -1 {
          LinkSkipRoot(parents, tracks, i);
        } else {
          LinkAppend(parents, tracks, i);
          tracks := tracks[parId := tracks[parId].(children := tracks[parId].children + [i])];
          RootOfChild(parents, i);
          DepthStep(parents, i);
          while parId != -1
            invariant -1 <= parId < n && Walking(parents, tracks, i) && trajectories == trajs
            invariant parId != -1 ==> Root(parents, parId) == Root(parents, i)
            invariant parId == -1 ==> tracks[i].ancestor == Root(parents, i)
            decreases if parId == -1 then 0 else Depth(parents, parId) + 1
          {
            WalkStep(parents, tracks, i, parId);
            tracks := tracks[i := tracks[i].(ancestor := parId)];
            if parents[parId] != -1 {
              RootOfChild(parents, parId);
              DepthStep(parents, parId);
            }
            parId := trajs[parId].parentId;
          }
          LinkDone(parents, tracks, i);
        }
        i := i + 1;
      }
      LinkedAll(parents, tracks);
      tracksRead := true;
    }

    /** Credits each deposit in turn to the track that made it. Birks law
        raises ZeroDivisionError on a deposit of zero length: the deposits
        before it stay credited, it and those after it are not. */
    method ReadEnergyDepo(ds: seq<Deposit>) returns (ok: bool)
      requires DepositsOwned(ds, |tracks|)
      modifies this`depos, this`tracks
      ensures depos == ds
      ensures ok <==> FirstFailure(ds) == |ds|
      ensures |tracks| == |old(tracks)|
      ensures forall t :: 0 <= t < |tracks| ==> tracks[t] == Credited(old(tracks), t, ds, FirstFailure(ds))
    {
      depos := ds;
      var i := 0;
      while i < |ds|
        invariant i <= |ds| && CreditableUpTo(ds, i) && depos == ds
        invariant CreditedUpTo(old(tracks), tracks, ds, i)
      {
        var d := ds[i];
        var q := ChargeBirksLaw(d.energy, LengthCm(d));
        if q.Err? {
          FirstFailureAt(ds, i);
          return false;
        }
        var c := Contribution(d).value;
        var trkId := d.trackId;
        assert CreditableUpTo(ds, i + 1);
        CreditAll(old(tracks), tracks, ds, i, c);
        var track := tracks[trkId];
        tracks := tracks[trkId := track.(deposited := track.deposited.Plus(c),
                                         selfDepo := track.selfDepo + LengthCm(d),
                                         depoList := track.depoList + [i])];
        i := i + 1;
      }
      FirstFailureAt(ds, i);
      ok := true;
    }

    /** The descendant fold of track t: its own sums plus, daughter by
        daughter, the folds of its daughters. The five folds of the source
        (energy, Birks charge, Modified Box charge, Birks light, Modified Box
        light) are the five components of the result. */
    method GetDepoWithDescendants(t: nat) returns (d: Deposited)
      requires TracksLinked() && t < |tracks|
      ensures d == SubtreeSum(Parents(trajectories), Own(tracks), t)
      decreases |tracks| - Depth(Parents(trajectories), t)
    {
      var parents := Parents(trajectories);
      var own := Own(tracks);
      d := tracks[t].deposited;
      PlusZero(d);
      var children := tracks[t].children;
      var k := 0;
      while k < |children|
        invariant k <= |children|
        invariant d == own[t].Plus(ChildrenSum(parents, own, t, children[..k]))
      {
        var c := children[k];
        DepthStep(parents, c);
        var sub := GetDepoWithDescendants(c);
        FoldStep(parents, own, t, children, k);
        PlusAssoc(own[t], ChildrenSum(parents, own, t, children[..k]), sub);
        d := d.Plus(sub);
        k := k + 1;
      }
      assert children[..k] == children;
    }

    /** Adds every particle of the vertex with a non-negative track id to the
        summary. A track id past the last track raises IndexError; the
        particles before it have been added. */
    method FillEnergyInfo() returns (ok: bool)
      requires TracksLinked() && vertex.Some? && WellShaped(info)
      modifies this`info
      ensures var ps := vertex.value.particles;
        var k := FirstOutOfRange(ps, |tracks|);
        (ok <==> k == |ps|) && info == Summarize(old(info), Parents(trajectories), tracks, ps[..k])
    {
      var parents := Parents(trajectories);
      var ps := vertex.value.particles;
      var i := 0;
      while i < |ps|
        invariant i <= |ps| && ParticlesInRange(ps[..i], |tracks|)
        invariant info == Summarize(old(info), parents, tracks, ps[..i])
      {
        var p := ps[i];
        var trkId := p.trackId;
        if trkId >= 0 {
          if trkId >= |tracks| {
            return false;
          }
          var depoE := GetDepoWithDescendants(trkId);
          var track := tracks[trkId];
          var depoTrack, depoDots;
          if track.selfDepo > 2.0 {
            depoTrack, depoDots := track.deposited.energy, 0.0;
          } else {
            depoTrack, depoDots := 0.0, track.deposited.charge.th75;
          }
          var mass := p.mass;
          var ke := p.energy - mass;
          var c := Classify(p.pdg);
          var avail := if CountsRestMass(c) then ke + mass else ke;
          var tally := Tally(avail, depoE, depoTrack, depoDots);
          assert tally == TallyOf(parents, tracks, p);
          AddedInRange(ps, |tracks|, i);
          SummarizeStep(old(info), parents, tracks, ps, i);
          info := AddParticle(info, c, tally);
        } else {
          AddedInRange(ps, |tracks|, i);
          SummarizeStep(old(info), parents, tracks, ps, i);
        }
        i := i + 1;
      }
      assert ps[..i] == ps;
      ok := true;
    }

    /** selectneutronevent: the number of primary neutrons among the tracks,
        which exist once an entry has been read. */
    method SelectNeutronEvent() returns (trig: nat)
      requires tracksRead
      ensures trig == |RootNeutrons(trajectories, |trajectories|)|
    {
      trig := 0;
      var i := 0;
      while i < |trajectories|
        invariant i <= |trajectories| && trig == |RootNeutrons(trajectories, i)|
      {
        var track := trajectories[i];
        if track.pdg == 2112 && track.parentId == -1 {
          trig := trig + 1;
        }
        i := i + 1;
      }
    }

    /** Reads entry entryNo: vertex, tracks and deposits, then a fresh
        summary with the cross section and the reaction code, filled from
        the vertex particles. ok is false where Python raises: a deposit of
        zero length, no vertex read yet, a nucleon field that is not an
        integer, or a particle whose track id is past the last track. */
    method Jump(entryNo: nat) returns (ok: bool)
      requires Valid() && entryNo < |entries|
      modifies this
      ensures Valid() && currentEntry == entryNo && tracksRead
      ensures var e := entries[entryNo];
        trajectories == e.trajectories && depos == e.depos &&
        (|e.primaries| == 1 ==> vertex == Some(e.primaries[0])) &&
        (|e.primaries| != 1 ==> vertex == old(vertex))
      ensures TracksLinked() &&
        forall t :: 0 <= t < |tracks| ==> tracks[t] == Credited(Linked(Parents(trajectories)), t, depos, FirstFailure(depos))
      ensures ok <==>
        FirstFailure(depos) == |depos| && vertex.Some? &&
        ParseReaction(vertex.value.reaction).Ok? && ParticlesInRange(vertex.value.particles, |tracks|)
      ensures ok ==>
        var rc := ParseReaction(vertex.value.reaction).value;
        info == Summarize(EmptyInfo(entryNo, vertex.value.crossSection, rc.process, rc.nucleon),
                          Parents(trajectories), tracks, vertex.value.particles)
    {
      currentEntry := entryNo;
      var e := entries[entryNo];
      assert e in entries;
      ReadVertex(e.primaries);
      ReadTracks(e.trajectories);
      ok := ReadEnergyDepo(e.depos);
      assert TracksLinked();
      if !ok {
        return;
      }
      if vertex.None? {
        return false;
      }
      var v := vertex.value;
      var reaction := GetReaction(v.reaction);
      if reaction.Err? {
        return false;
      }
      info := EmptyInfo(entryNo, v.crossSection, reaction.value.process, reaction.value.nucleon);
      ok := FillEnergyInfo();
      assert v.particles[..|v.particles|] == v.particles;
    }

    /** Moves to the next entry, from the last back to the first, and reads it. */
    method Next() returns (ok: bool)
      requires Valid()
      modifies this
      ensures Valid() && currentEntry == NextEntry(old(currentEntry), |entries|)
      ensures var e := entries[currentEntry];
        trajectories == e.trajectories && depos == e.depos &&
        (|e.primaries| == 1 ==> vertex == Some(e.primaries[0])) &&
        (|e.primaries| != 1 ==> vertex == old(vertex))
      ensures TracksLinked() && tracksRead &&
        forall t :: 0 <= t < |tracks| ==> tracks[t] == Credited(Linked(Parents(trajectories)), t, depos, FirstFailure(depos))
      ensures ok <==>
        FirstFailure(depos) == |depos| && vertex.Some? &&
        ParseReaction(vertex.value.reaction).Ok? && ParticlesInRange(vertex.value.particles, |tracks|)
      ensures ok ==>
        var rc := ParseReaction(vertex.value.reaction).value;
        info == Summarize(EmptyInfo(currentEntry, vertex.value.crossSection, rc.process, rc.nucleon),
                          Parents(trajectories), tracks, vertex.value.particles)
    {
      if currentEntry != |entries| - 1 {
        currentEntry := currentEntry + 1;
      } else {
        currentEntry := 0;
      }
      ok := Jump(currentEntry);
    }

    /** Moves to the previous entry, from the first on to the last, and reads it. */
    method Prev() returns (ok: bool)
      requires Valid()
      modifies this
      ensures Valid() && currentEntry == PrevEntry(old(currentEntry), |entries|)
      ensures var e := entries[currentEntry];
        trajectories == e.trajectories && depos == e.depos &&
        (|e.primaries| == 1 ==> vertex == Some(e.primaries[0])) &&
        (|e.primaries| != 1 ==> vertex == old(vertex))
      ensures TracksLinked() && tracksRead &&
        forall t :: 0 <= t < |tracks| ==> tracks[t] == Credited(Linked(Parents(trajectories)), t, depos, FirstFailure(depos))
      ensures ok <==>
        FirstFailure(depos) == |depos| && vertex.Some? &&
        ParseReaction(vertex.value.reaction).Ok? && ParticlesInRange(vertex.value.particles, |tracks|)
      ensures ok ==>
        var rc := ParseReaction(vertex.value.reaction).value;
        info == Summarize(EmptyInfo(currentEntry, vertex.value.crossSection, rc.process, rc.nucleon),
                          Parents(trajectories), tracks, vertex.value.particles)
    {
      if currentEntry != 0 {
        currentEntry := currentEntry - 1;
      } else {
        currentEntry := |entries| - 1;
      }
      ok := Jump(currentEntry);
    }
  }

  /** ReadTracks' state once the first i tracks are linked: every track
      other than `skip` is empty, lists its daughters among the first i
      tracks and, if it is one of them, has its ancestor set. */
  predicate LinkedPrefix(parents: seq<int>, ts: seq<TrackState>, i: nat, skip: int)
    requires Acyclic(parents) && i <= |parents|
  {
    |ts| == |parents| &&
    forall t :: 0 <= t < |ts| && t != skip ==>
      ts[t] == TrackState(Zero, 0.0, [], ChildrenOf(parents, t, i), if t < i then Root(parents, t) else t)
  }

  lemma LinkStart(parents: seq<int>, ts: seq<TrackState>)
    requires Acyclic(parents) && |ts| == |parents|
    requires forall t :: 0 <= t < |ts| ==> ts[t] == Unlinked(t)
    ensures LinkedPrefix(parents, ts, 0, -1)
  {
  }

  lemma LinkSkipRoot(parents: seq<int>, ts: seq<TrackState>, i: nat)
    requires Acyclic(parents) && i < |parents| && parents[i] == -1
    requires LinkedPrefix(parents, ts, i, -1)
    ensures LinkedPrefix(parents, ts, i + 1, -1)
  {
  }

  /** During the walk up from track i: all is linked up to i except i's ancestor. */
  predicate Walking(parents: seq<int>, ts: seq<TrackState>, i: nat)
    requires Acyclic(parents) && i < |parents|
  {
    LinkedPrefix(parents, ts, i + 1, i) &&
    ts[i] == TrackState(Zero, 0.0, [], ChildrenOf(parents, i, i + 1), ts[i].ancestor)
  }

  lemma LinkAppend(parents: seq<int>, ts: seq<TrackState>, i: nat)
    requires Acyclic(parents) && i < |parents| && parents[i] != -1
    requires LinkedPrefix(parents, ts, i, -1)
    ensures var p := parents[i];
      Walking(parents, ts[p := ts[p].(children := ts[p].children + [i])], i)
  {
    DepthStep(parents, i);
  }

  lemma WalkStep(parents: seq<int>, ts: seq<TrackState>, i: nat, a: nat)
    requires Acyclic(parents) && i < |parents| && Walking(parents, ts, i)
    ensures Walking(parents, ts[i := ts[i].(ancestor := a)], i)
  {
  }

  lemma LinkDone(parents: seq<int>, ts: seq<TrackState>, i: nat)
    requires Acyclic(parents) && i < |parents|
    requires Walking(parents, ts, i) && ts[i].ancestor == Root(parents, i)
    ensures LinkedPrefix(parents, ts, i + 1, -1)
  {
  }

  lemma LinkedAll(parents: seq<int>, ts: seq<TrackState>)
    requires Acyclic(parents) && LinkedPrefix(parents, ts, |parents|, -1)
    ensures ts == Linked(parents)
  {
  }

  lemma AddedInRange(ps: seq<Particle>, nTracks: nat, i: nat)
    requires i < |ps| && ParticlesInRange(ps[..i], nTracks) && ps[i].trackId < nTracks
    ensures ParticlesInRange(ps[..i + 1], nTracks)
  {
    assert forall j :: 0 <= j < i ==> ps[..i + 1][j] == ps[..i][j];
  }

  /** One more daughter in the fold: the sum over the first k+1 daughters
      is the sum over the first k plus the fold of daughter k. */
  lemma FoldStep(parents: seq<int>, own: seq<Deposited>, t: nat, cs: seq<nat>, k: nat)
    requires Acyclic(parents) && |own| == |parents| && t < |parents| && k < |cs|
    requires forall j :: 0 <= j < |cs| ==> cs[j] < |parents| && parents[cs[j]] == t
    ensures ChildrenSum(parents, own, t, cs[..k + 1]) ==
      ChildrenSum(parents, own, t, cs[..k]).Plus(SubtreeSum(parents, own, cs[k]))
  {
    assert cs[..k + 1][..k] == cs[..k];
  }
}
