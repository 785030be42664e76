/** The event summary FillEnergyInfo builds from the primary vertex's
    particles: scalar totals and eight per-category slots (lepton, proton,
    neutron, charged pion, neutral pion, gamma, alpha, other), with particle
    categories taken from the PDG Monte Carlo particle numbering scheme. */
module Summary {
  import opened Forest
  import opened Response
  import opened Tracks
  import opened Descendants

  datatype Category = Lepton | Proton | Neutron | ChargedPion | NeutralPion | Gamma | Alpha | Other

  /** The category of a PDG code, tested in the order the summary does. */
  function Classify(pdg: int): Category {
    if pdg in [13, -13, 11, -11] then Lepton
    else if pdg == 2212 then Proton
    else if pdg == 2112 then Neutron
    else if pdg in [211, -211] then ChargedPion
    else if pdg == 111 then NeutralPion
    else if pdg == 22 then Gamma
    else if pdg == 1000020040 then Alpha
    else Other
  }

  /** The slot index of each category. */
  function SlotOf(c: Category): (k: nat)
    ensures k < 8
  {
    match c
    case Lepton => 0
    case Proton => 1
    case Neutron => 2
    case ChargedPion => 3
    case NeutralPion => 4
    case Gamma => 5
    case Alpha => 6
    case Other => 7
  }

  /** Distinct categories use distinct slots, so every particle lands in
      exactly one. */
  lemma SlotsDistinct(c1: Category, c2: Category)
    ensures SlotOf(c1) == SlotOf(c2) <==> c1 == c2
  {
  }

  /** Which PDG codes fall in which slot. */
  lemma ClassifyCodes(pdg: int)
    ensures Classify(pdg) == Lepton <==> pdg == 11 || pdg == -11 || pdg == 13 || pdg == -13
    ensures Classify(pdg) == Proton <==> pdg == 2212
    ensures Classify(pdg) == Neutron <==> pdg == 2112
    ensures Classify(pdg) == ChargedPion <==> pdg == 211 || pdg == -211
    ensures Classify(pdg) == NeutralPion <==> pdg == 111
    ensures Classify(pdg) == Gamma <==> pdg == 22
    ensures Classify(pdg) == Alpha <==> pdg == 1000020040
    ensures Classify(pdg) == Other <==>
      pdg !in {11, -11, 13, -13, 2212, 2112, 211, -211, 111, 22, 1000020040}
  {
  }

  /** The categories whose available energy includes the rest mass. */
  predicate CountsRestMass(c: Category) {
    c == Lepton || c == ChargedPion || c == NeutralPion || c == Gamma
  }

  /** A primary particle: its track id (negative when the simulation did not
      track it), PDG code, and its four-momentum's energy and invariant mass. */
  datatype Particle = Particle(trackId: int, pdg: int, energy: real, mass: real)

  /** The energy a particle makes available: kinetic energy plus the mass for
      leptons, pions and photons, kinetic energy alone for the rest. */
  function AvailableEnergy(p: Particle): (e: real)
    ensures CountsRestMass(Classify(p.pdg)) ==> e == p.energy
    ensures !CountsRestMass(Classify(p.pdg)) ==> e == p.energy - p.mass
  {
    var ke := p.energy - p.mass;
    if CountsRestMass(Classify(p.pdg)) then ke + p.mass else ke
  }

  /** What one particle adds, both to the totals and to its slot: available
      energy, the descendant folds, the deposit energy counted as a
      reconstructable track and the charge counted as dots. */
  datatype Tally = Tally(avail: real, depo: Deposited, depoTrack: real, dotsCharge: real) {
    function Plus(o: Tally): Tally {
      Tally(avail + o.avail, depo.Plus(o.depo), depoTrack + o.depoTrack, dotsCharge + o.dotsCharge)
    }
  }

  const NoTally := Tally(0.0, Zero, 0.0, 0.0)

  /** The tally of particle p, given the fold over its subtree and its own
      track: a track longer than 2 cm counts its own deposit energy as track
      energy, a shorter one counts its own above-75-keV charge as dots. */
  function ParticleTally(p: Particle, subtree: Deposited, self: TrackState): Tally {
    if self.selfDepo > 2.0 then Tally(AvailableEnergy(p), subtree, self.deposited.energy, 0.0)
    else Tally(AvailableEnergy(p), subtree, 0.0, self.deposited.charge.th75)
  }

  /** The track-or-dots split looks only at the particle's own track: exactly
      one of the two is taken from it, and the subtree plays no part. */
  lemma TrackOrDots(p: Particle, sub1: Deposited, sub2: Deposited, self: TrackState)
    ensures var t := ParticleTally(p, sub1, self);
      (self.selfDepo > 2.0 ==> t.depoTrack == self.deposited.energy && t.dotsCharge == 0.0) &&
      (self.selfDepo <= 2.0 ==> t.depoTrack == 0.0 && t.dotsCharge == self.deposited.charge.th75)
    ensures ParticleTally(p, sub1, self).depoTrack == ParticleTally(p, sub2, self).depoTrack
    ensures ParticleTally(p, sub1, self).dotsCharge == ParticleTally(p, sub2, self).dotsCharge
  {
  }

  /** The event summary: id, cross section, packed process and nucleon, the
      totals, the eight slots and the particle count per slot. */
  datatype Info = Info(eventId: nat, nuXs: real, nuProc: int, nuNucl: int,
                       total: Tally, slots: seq<Tally>, nPar: seq<nat>)

  predicate WellShaped(info: Info) {
    |info.slots| == 8 && |info.nPar| == 8
  }

  /** The summary as Jump starts it, before any particle is added. */
  function EmptyInfo(eventId: nat, nuXs: real, nuProc: int, nuNucl: int): (info: Info)
    ensures WellShaped(info)
  {
    Info(eventId, nuXs, nuProc, nuNucl, NoTally, seq(8, _ => NoTally), seq(8, _ => 0))
  }

  /** Adds a particle's tally to the totals and to the slot of its category. */
  function AddParticle(info: Info, c: Category, t: Tally): (r: Info)
    requires WellShaped(info)
    ensures WellShaped(r)
    ensures forall j :: 0 <= j < 8 && j != SlotOf(c) ==> r.slots[j] == info.slots[j] && r.nPar[j] == info.nPar[j]
    ensures r.nPar[SlotOf(c)] == info.nPar[SlotOf(c)] + 1
    ensures r.slots[SlotOf(c)] == info.slots[SlotOf(c)].Plus(t) && r.total == info.total.Plus(t)
    ensures r.eventId == info.eventId && r.nuXs == info.nuXs && r.nuProc == info.nuProc && r.nuNucl == info.nuNucl
  {
    var k := SlotOf(c);
    info.(total := info.total.Plus(t),
          slots := info.slots[k := info.slots[k].Plus(t)],
          nPar := info.nPar[k := info.nPar[k] + 1])
  }

  function SumTallies(s: seq<Tally>): Tally {
    if s == [] then NoTally else SumTallies(s[..|s| - 1]).Plus(s[|s| - 1])
  }

  function SumNats(s: seq<nat>): nat {
    if s == [] then 0 else SumNats(s[..|s| - 1]) + s[|s| - 1]
  }

  /** Every total is the sum of its eight slots. */
  predicate Consistent(info: Info) {
    WellShaped(info) && info.total == SumTallies(info.slots)
  }

  lemma TallyAssoc(a: Tally, b: Tally, c: Tally)
    ensures a.Plus(b).Plus(c) == a.Plus(b.Plus(c))
  {
  }

  lemma TallySwap(a: Tally, b: Tally, c: Tally)
    ensures a.Plus(b).Plus(c) == a.Plus(c).Plus(b)
  {
  }

  lemma TallyZero(a: Tally)
    ensures a.Plus(NoTally) == a
  {
  }

  lemma {:induction false} SumTalliesUpdate(s: seq<Tally>, k: nat, t: Tally)
    requires k < |s|
    ensures SumTallies(s[k := s[k].Plus(t)]) == SumTallies(s).Plus(t)
    decreases |s|
  {
    var s' := s[k := s[k].Plus(t)];
    var pre := s[..|s| - 1];
    if k == |s| - 1 {
      assert s'[..|s| - 1] == pre;
      TallyAssoc(SumTallies(pre), s[k], t);
    } else {
      assert s'[..|s| - 1] == pre[k := pre[k].Plus(t)];
      SumTalliesUpdate(pre, k, t);
      TallySwap(SumTallies(pre), t, s[|s| - 1]);
    }
  }

  lemma {:induction false} SumNatsUpdate(s: seq<nat>, k: nat)
    requires k < |s|
    ensures SumNats(s[k := s[k] + 1]) == SumNats(s) + 1
    decreases |s|
  {
    var s' := s[k := s[k] + 1];
    if k == |s| - 1 {
      assert s'[..|s| - 1] == s[..|s| - 1];
    } else {
      assert s'[..|s| - 1] == s[..|s| - 1][k := s[k] + 1];
      SumNatsUpdate(s[..|s| - 1], k);
    }
  }

  /** Adding a particle keeps every total equal to the sum of its slots and
      raises the particle count by exactly one. */
  lemma AddParticleConsistent(info: Info, c: Category, t: Tally)
    requires Consistent(info)
    ensures Consistent(AddParticle(info, c, t))
    ensures SumNats(AddParticle(info, c, t).nPar) == SumNats(info.nPar) + 1
  {
    SumTalliesUpdate(info.slots, SlotOf(c), t);
    SumNatsUpdate(info.nPar, SlotOf(c));
  }

  lemma {:induction false} EmptyInfoConsistent(eventId: nat, nuXs: real, nuProc: int, nuNucl: int)
    ensures Consistent(EmptyInfo(eventId, nuXs, nuProc, nuNucl))
    ensures SumNats(EmptyInfo(eventId, nuXs, nuProc, nuNucl).nPar) == 0
  {
    var info := EmptyInfo(eventId, nuXs, nuProc, nuNucl);
    NoTallies(info.slots);
    NoParticles(info.nPar);
  }

  lemma {:induction false} NoTallies(s: seq<Tally>)
    requires forall k :: 0 <= k < |s| ==> s[k] == NoTally
    ensures SumTallies(s) == NoTally
    decreases |s|
  {
    if s != [] {
      NoTallies(s[..|s| - 1]);
      TallyZero(NoTally);
    }
  }

  lemma {:induction false} NoParticles(s: seq<nat>)
    requires forall k :: 0 <= k < |s| ==> s[k] == 0
    ensures SumNats(s) == 0
    decreases |s|
  {
    if s != [] {
      NoParticles(s[..|s| - 1]);
    }
  }

  /** The credited sums of the tracks, the values the descendant folds add up. */
  function Own(ts: seq<TrackState>): (own: seq<Deposited>)
    ensures |own| == |ts| && forall i :: 0 <= i < |ts| ==> own[i] == ts[i].deposited
  {
    seq(|ts|, i requires 0 <= i < |ts| => ts[i].deposited)
  }

  /** Every tracked particle refers to a track of the event. */
  predicate ParticlesInRange(ps: seq<Particle>, nTracks: nat) {
    forall i :: 0 <= i < |ps| ==> ps[i].trackId < nTracks
  }

  /** The tally of a tracked particle. */
  function TallyOf(parents: seq<int>, ts: seq<TrackState>, p: Particle): Tally
    requires Acyclic(parents) && |ts| == |parents| && 0 <= p.trackId < |ts|
  {
    ParticleTally(p, SubtreeSum(parents, Own(ts), p.trackId), ts[p.trackId])
  }

  /** The summary after the particles ps, in order: particles with a
      negative track id are skipped, every other one is added to its slot. */
  function Summarize(info: Info, parents: seq<int>, ts: seq<TrackState>, ps: seq<Particle>): (r: Info)
    requires WellShaped(info) && Acyclic(parents) && |ts| == |parents| && ParticlesInRange(ps, |ts|)
    ensures WellShaped(r)
  {
    if ps == [] then info
    else
      var prev := Summarize(info, parents, ts, ps[..|ps| - 1]);
      var p := ps[|ps| - 1];
      if p.trackId < 0 then prev
      else AddParticle(prev, Classify(p.pdg), TallyOf(parents, ts, p))
  }

  /** One more particle: skipped when untracked, else added to its slot. */
  lemma SummarizeStep(info: Info, parents: seq<int>, ts: seq<TrackState>, ps: seq<Particle>, i: nat)
    requires WellShaped(info) && Acyclic(parents) && |ts| == |parents| && i < |ps|
    requires ParticlesInRange(ps[..i + 1], |ts|)
    ensures ParticlesInRange(ps[..i], |ts|)
    ensures Summarize(info, parents, ts, ps[..i + 1]) ==
      if ps[i].trackId < 0 then Summarize(info, parents, ts, ps[..i])
      else AddParticle(Summarize(info, parents, ts, ps[..i]), Classify(ps[i].pdg), TallyOf(parents, ts, ps[i]))
  {
    assert ps[..i + 1][..i] == ps[..i];
  }

  /** The number of particles with a non-negative track id. */
  function TrackedCount(ps: seq<Particle>): nat {
    if ps == [] then 0 else TrackedCount(ps[..|ps| - 1]) + (if ps[|ps| - 1].trackId >= 0 then 1 else 0)
  }

  /** Summarizing keeps the totals equal to the slot sums, and the slot
      counts grow by exactly the number of tracked particles. */
  lemma {:induction false} SummarizeConsistent(info: Info, parents: seq<int>, ts: seq<TrackState>, ps: seq<Particle>)
    requires Consistent(info) && Acyclic(parents) && |ts| == |parents| && ParticlesInRange(ps, |ts|)
    ensures Consistent(Summarize(info, parents, ts, ps))
    ensures SumNats(Summarize(info, parents, ts, ps).nPar) == SumNats(info.nPar) + TrackedCount(ps)
    decreases |ps|
  {
    if ps != [] {
      var pre := ps[..|ps| - 1];
      SummarizeConsistent(info, parents, ts, pre);
      var p := ps[|ps| - 1];
      if p.trackId >= 0 {
        AddParticleConsistent(Summarize(info, parents, ts, pre), Classify(p.pdg), TallyOf(parents, ts, p));
      }
    }
  }

  /** The summary Jump builds from scratch: every total equals the sum of
      its eight slots, and the slot counts add up to the number of tracked
      particles. */
  lemma SummaryFromEmpty(eventId: nat, nuXs: real, nuProc: int, nuNucl: int,
                         parents: seq<int>, ts: seq<TrackState>, ps: seq<Particle>)
    requires Acyclic(parents) && |ts| == |parents| && ParticlesInRange(ps, |ts|)
    ensures var info := Summarize(EmptyInfo(eventId, nuXs, nuProc, nuNucl), parents, ts, ps);
      Consistent(info) && SumNats(info.nPar) == TrackedCount(ps)
  {
    EmptyInfoConsistent(eventId, nuXs, nuProc, nuNucl);
    SummarizeConsistent(EmptyInfo(eventId, nuXs, nuProc, nuNucl), parents, ts, ps);
  }

  /** The particles with a non-negative track id, in order. */
  function Tracked(ps: seq<Particle>): (r: seq<Particle>)
    ensures |r| <= |ps| && forall i :: 0 <= i < |r| ==> r[i].trackId >= 0 && r[i] in ps
  {
    if ps == [] then []
    else if ps[|ps| - 1].trackId >= 0 then Tracked(ps[..|ps| - 1]) + [ps[|ps| - 1]]
    else Tracked(ps[..|ps| - 1])
  }

  /** Particles with a negative track id change nothing: the summary of all
      particles is the summary of the tracked ones alone. */
  lemma {:induction false} UntrackedIgnored(info: Info, parents: seq<int>, ts: seq<TrackState>, ps: seq<Particle>)
    requires WellShaped(info) && Acyclic(parents) && |ts| == |parents| && ParticlesInRange(ps, |ts|)
    ensures ParticlesInRange(Tracked(ps), |ts|)
    ensures Summarize(info, parents, ts, ps) == Summarize(info, parents, ts, Tracked(ps))
    decreases |ps|
  {
    var tr := Tracked(ps);
    forall i | 0 <= i < |tr| ensures tr[i].trackId < |ts| {
      var j :| 0 <= j < |ps| && ps[j] == tr[i];
    }
    if ps != [] {
      var pre := ps[..|ps| - 1];
      UntrackedIgnored(info, parents, ts, pre);
      if ps[|ps| - 1].trackId >= 0 {
        assert tr[..|tr| - 1] == Tracked(pre);
      }
    }
  }
}
