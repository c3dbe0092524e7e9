/** Which combinations of the three reservation names a crash may leave, and what each call does to them. */
module ReservationOutcomes {
  import opened MetadataText
  import opened CrashViews

  ghost predicate Ahead(exposed: set<nat>, v: nat)
  {
    forall n | n in exposed :: n < v
  }

  function Number(v: View): nat
  {
    if v.Whole? && ReadNext(v.text).Some? then ReadNext(v.text).value else 0
  }

  /** One combination of the three metadata names that a crash may leave. */
  ghost predicate Good(f: View, p: View, m: View, exposed: set<nat>, established: bool)
  {
    && !f.Malformed?
    && (f.Whole? ==> Ahead(exposed, Number(f)))
    && (p.Whole? ==> Ahead(exposed, Number(p)))
    && (f.Whole? && p.Whole? && p.ino == f.ino ==> p == f)
    && (f.Whole? && p.Whole? && p.ino != f.ino ==> Number(f) < Number(p) && m.Whole?)
    && (f.Absent? && !p.Whole? ==> m.Absent?)
    && (f.Absent? ==> !m.Malformed?)
    && (established ==> m.Whole?)
  }

  /**
   How the present constrains the crash outcomes: a published text is whole for sure; a published name
   that a crash could still lose is backed by the pending link; while the published name could be lost,
   only one pending text could replace it.
   */
  ghost predicate Publication(f: Slot, p: Slot, m: Slot)
  {
    && (forall a, b | a in f.all && b in f.all && a.Whole? && b.Whole? && a.ino == b.ino :: a == b)
    && (Absent in f.all ==> f.now.Whole? ==> p.now == f.now)
    && (Absent in f.all ==> forall a, b | a in p.all && b in p.all && a.Whole? && b.Whole? :: a == b)
    && (f.now.Absent? ==> forall a, b | a in f.all && a.Whole? && b in m.all :: b.Whole?)
    && (f.now.Absent? && !p.now.Whole? ==> forall a | a in p.all :: !a.Whole?)
    && (f.now.Whole? ==> forall a | a in f.all && a.Whole? :: Number(a) <= Number(f.now))
  }

  ghost predicate Sound(f: Slot, p: Slot, m: Slot, exposed: set<nat>, established: bool)
  {
    && (forall a, b, c | a in f.all && b in p.all && c in m.all :: Good(a, b, c, exposed, established))
    && Publication(f, p, m)
  }

  // ----- the three names as sets of outcomes -----

  ghost predicate Shaped(s: Slot)
  {
    s.now in s.cur && s.cur <= s.all
  }

  lemma NarrowSound(f: Slot, p: Slot, m: Slot, f': Slot, p': Slot, m': Slot, exposed: set<nat>, established: bool)
    requires Sound(f, p, m, exposed, established)
    requires Narrower(f', f) && Narrower(p', p) && Narrower(m', m)
    ensures Sound(f', p', m', exposed, established)
  {}

  lemma SettleSound(f: Slot, p: Slot, m: Slot, f': Slot, p': Slot, m': Slot, exposed: set<nat>, established: bool)
    requires Sound(f, p, m, exposed, established)
    requires f'.all <= f.all && p'.all <= p.all && m'.all <= m.all
    requires f'.all == {f'.now} && p'.all == {p'.now} && m'.all == {m'.now}
    ensures Sound(f', p', m', exposed, established)
  {}

  /** Nothing pending competes with a number that is published for sure. */
  ghost predicate NoRival(f: Slot, p: Slot)
  {
    Absent !in f.all && forall a, b | a in f.all && b in p.all && b.Whole? :: a == b
  }

  lemma NoMarkerNoRival(f: Slot, p: Slot, m: Slot, exposed: set<nat>, established: bool)
    requires Sound(f, p, m, exposed, established)
    requires Shaped(f) && Shaped(p) && Shaped(m)
    requires f.now.Whole? && p.now.Absent? && !m.now.Whole?
    ensures NoRival(f, p) && !established
  {
    assert Good(f.now, p.now, m.now, exposed, established);
    forall a, b | a in f.all && b in p.all && b.Whole? ensures a == b {
      assert Good(a, b, m.now, exposed, established);
    }
  }

  lemma MarkerSound(f: Slot, p: Slot, m: Slot, m': Slot, exposed: set<nat>)
    requires Sound(f, p, m, exposed, false) && m.all != {}
    requires NoRival(f, p) && f.now.Whole?
    ensures Sound(f, p, m', exposed, false)
  {
    var c :| c in m.all;
    forall a, b, d | a in f.all && b in p.all && d in m'.all ensures Good(a, b, d, exposed, false) {
      assert Good(a, b, c, exposed, false);
    }
  }

  lemma LinkSound(f: Slot, p: Slot, m: Slot, exposed: set<nat>, established: bool)
    requires Sound(f, p, m, exposed, established)
    requires f.now.Absent? && Absent in f.all
    requires p.now.Whole? && p.now in p.all && m.now in m.all
    ensures Sound(Slot(p.now, {p.now}, f.all + {p.now}), p, m, exposed, established)
  {
    forall a, b, c | a in f.all + {p.now} && b in p.all && c in m.all ensures Good(a, b, c, exposed, established) {
      assert Good(Absent, p.now, c, exposed, established);
      assert Good(Absent, b, c, exposed, established);
    }
    forall a | a in f.all && a.Whole? ensures Number(a) <= Number(p.now) && (a.ino == p.now.ino ==> a == p.now) {
      assert Good(a, p.now, m.now, exposed, established);
    }
  }

  lemma DropPendingSound(f: Slot, p: Slot, m: Slot, exposed: set<nat>, established: bool)
    requires Sound(f, p, m, exposed, established) && Shaped(f) && Shaped(p)
    requires Absent in f.all ==> f.now.Absent? && !p.now.Whole?
    ensures Sound(f, Slot(Absent, {Absent}, p.all + {Absent}), m, exposed, established)
  {
    forall a, b, c | a in f.all && b in p.all + {Absent} && c in m.all ensures Good(a, b, c, exposed, established) {
      assert Good(a, p.now, c, exposed, established);
    }
  }

  lemma UnlinkFinalSound(f: Slot, p: Slot, m: Slot, exposed: set<nat>, established: bool)
    requires Sound(f, p, m, exposed, established) && Shaped(f)
    requires p.now.Whole? && p.all == {p.now} && f.now.Whole? && f.now.ino != p.now.ino
    ensures Sound(Slot(Absent, {Absent}, f.all + {Absent}), p, m, exposed, established)
  {
    forall c | c in m.all ensures c.Whole? && Good(f.now, p.now, c, exposed, established) {
    }
  }

  lemma CreatePendingSound(f: Slot, p: Slot, m: Slot, exposed: set<nat>, established: bool)
    requires Sound(f, p, m, exposed, established)
    requires p.now.Absent? && Absent in p.all
    ensures Sound(f, Slot(Malformed, {Malformed}, p.all + {Malformed}), m, exposed, established)
  {
    forall a, b, c | a in f.all && b in p.all + {Malformed} && c in m.all ensures Good(a, b, c, exposed, established) {
      assert Good(a, Absent, c, exposed, established);
    }
  }

  /** A new pending text, part or whole, that is ahead of everything and of whatever is published. */
  lemma WritePendingSound(f: Slot, p: Slot, m: Slot, p': Slot, w: View, exposed: set<nat>, established: bool)
    requires Sound(f, p, m, exposed, established)
    requires p.now.Absent? && Absent in p.all && f.now in f.all && m.now in m.all
    requires p'.all <= p.all + {Malformed, w} && !p'.now.Absent? && (p'.now.Malformed? ==> w.Malformed?)
    requires w.Malformed? || (w.Whole? && Ahead(exposed, Number(w)))
    requires w.Whole? ==> forall a | a in f.all && a.Whole? :: a.ino != w.ino && Number(a) < Number(w)
    requires w.Whole? ==> f.now.Absent? || forall c | c in m.all :: c.Whole?
    ensures Sound(f, p', m, exposed, established)
  {
    forall a, b, c | a in f.all && b in p'.all && c in m.all ensures Good(a, b, c, exposed, established) {
      assert Good(a, Absent, c, exposed, established);
    }
    assert Good(f.now, Absent, m.now, exposed, established);
  }
}
