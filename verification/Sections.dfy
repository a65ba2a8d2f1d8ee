/** Texts cut into consecutive sections by a state machine.
    Each octet belongs to the section of the state it leads to. */
module Sections {

  // `part` numbers the section of a state; a dead state has the number of sections as its part.
  datatype Machine<!S> = Machine(next: (S, char) -> S, part: S -> nat, sections: nat)

  // Section k of a text is what lies between bounds k and k + 1.
  type Bounds = seq<nat>

  datatype Cut<!S> = Cut(state: S, bounds: Bounds)

  // The sections after `k` are moved to end at `e`.
  function Extend(b: Bounds, k: nat, e: nat): (r: Bounds)
    ensures |r| == |b| && forall j :: 0 <= j < |b| ==> r[j] == if j > k then e else b[j]
  {
    seq(|b|, j requires 0 <= j < |b| => if j > k then e else b[j])
  }

  function Run<S>(m: Machine<S>, s: S, b: Bounds, p: nat, text: string): (c: Cut<S>)
    ensures |c.bounds| == |b|
    decreases |text|
  {
    if text == [] then Cut(s, b)
    else
      var s' := m.next(s, text[0]);
      Run(m, s', Extend(b, m.part(s'), p + 1), p + 1, text[1..])
  }

  lemma {:induction false} RunConcat<S>(m: Machine<S>, s: S, b: Bounds, p: nat, x: string, y: string)
    ensures Run(m, s, b, p, x + y) == var c := Run(m, s, b, p, x); Run(m, c.state, c.bounds, p + |x|, y)
    decreases |x|
  {
    if x == [] {
      assert x + y == y;
    } else {
      var s' := m.next(s, x[0]);
      assert (x + y)[1..] == x[1..] + y;
      RunConcat(m, s', Extend(b, m.part(s'), p + 1), p + 1, x[1..], y);
    }
  }

  lemma {:induction false} Chain<S>(m: Machine<S>, s: S, b: Bounds, p: nat, x: string, y: string, c: Cut<S>, d: Cut<S>)
    requires Run(m, s, b, p, x) == c && Run(m, c.state, c.bounds, p + |x|, y) == d
    ensures Run(m, s, b, p, x + y) == d
  {
    RunConcat(m, s, b, p, x, y);
  }

  lemma {:induction false} RunOne<S>(m: Machine<S>, s: S, b: Bounds, p: nat, c: char)
    ensures Run(m, s, b, p, [c]) == var s' := m.next(s, c); Cut(s', Extend(b, m.part(s'), p + 1))
  {
    var s' := m.next(s, c);
    assert [c][1..] == [];
    assert Run(m, s, b, p, [c]) == Run(m, s', Extend(b, m.part(s'), p + 1), p + 1, []);
  }

  // Bounds in order, the sections after `k` still empty at `p`.
  ghost predicate Fits(b: Bounds, n: nat, k: nat, p: nat) {
    && |b| == n + 1 && b[0] == 0
    && (forall i, j :: 0 <= i <= j <= n ==> b[i] <= b[j])
    && (k < n ==> forall j :: k < j <= n ==> b[j] == p)
    && forall j :: 0 <= j <= n ==> b[j] <= p
  }

  // Sections come in order, and every octet has the class of its section.
  ghost predicate Law<S>(m: Machine<S>, kind: (nat, char) -> bool, s: S, ch: char) {
    var k := m.part(m.next(s, ch));
    m.part(s) <= k <= m.sections && (k < m.sections ==> kind(k, ch))
  }

  ghost predicate Laws<S(!new)>(m: Machine<S>, kind: (nat, char) -> bool) {
    forall s, ch :: Law(m, kind, s, ch)
  }

  ghost predicate ClassedAt(text: string, b: Bounds, kind: (nat, char) -> bool, k: nat, i: nat)
    requires k + 1 < |b|
  {
    b[k] <= i < b[k + 1] ==> i < |text| && kind(k, text[i])
  }

  ghost predicate Classed(text: string, b: Bounds, n: nat, kind: (nat, char) -> bool) {
    |b| == n + 1 && forall k, i :: 0 <= k < n && 0 <= i ==> ClassedAt(text, b, kind, k, i)
  }

  lemma {:induction false} StepFits<S>(m: Machine<S>, kind: (nat, char) -> bool, s: S, b: Bounds, text: string, p: nat)
    requires p < |text| && Law(m, kind, s, text[p]) && Fits(b, m.sections, m.part(s), p)
    requires m.part(m.next(s, text[p])) < m.sections
    requires Classed(text, b, m.sections, kind)
    ensures var k := m.part(m.next(s, text[p]));
            Fits(Extend(b, k, p + 1), m.sections, k, p + 1) && Classed(text, Extend(b, k, p + 1), m.sections, kind)
  {
    var k, n := m.part(m.next(s, text[p])), m.sections;
    var b' := Extend(b, k, p + 1);
    forall j, i | 0 <= j < n && 0 <= i ensures ClassedAt(text, b', kind, j, i) {
      assert ClassedAt(text, b, kind, j, i);
    }
  }

  function Zeros(n: nat): (b: Bounds)
    ensures |b| == n + 1 && forall j :: 0 <= j <= n ==> b[j] == 0
  {
    seq(n + 1, _ => 0)
  }

  // The cut of a prefix.
  function Upto<S>(m: Machine<S>, s: S, text: string, p: nat): Cut<S>
    requires p <= |text|
  {
    Run(m, s, Zeros(m.sections), 0, text[..p])
  }

  lemma {:induction false} UptoNext<S>(m: Machine<S>, s: S, text: string, p: nat)
    requires p < |text|
    ensures var c := Upto(m, s, text, p); var s' := m.next(c.state, text[p]);
            Upto(m, s, text, p + 1) == Cut(s', Extend(c.bounds, m.part(s'), p + 1))
  {
    var b0 := Zeros(m.sections);
    assert text[..p + 1] == text[..p] + [text[p]];
    RunConcat(m, s, b0, 0, text[..p], [text[p]]);
    var c := Upto(m, s, text, p);
    RunOne(m, c.state, c.bounds, p, text[p]);
  }

  lemma {:induction false} UptoAlive<S(!new)>(m: Machine<S>, kind: (nat, char) -> bool, s: S, text: string, p: nat,
                                       q: nat)
    requires Laws(m, kind) && p <= q <= |text| && m.part(Upto(m, s, text, q).state) < m.sections
    ensures m.part(Upto(m, s, text, p).state) < m.sections
    decreases q
  {
    if p < q {
      UptoNext(m, s, text, q - 1);
      assert Law(m, kind, Upto(m, s, text, q - 1).state, text[q - 1]);
      UptoAlive(m, kind, s, text, p, q - 1);
    }
  }

  // What a run that is not dead has cut.
  lemma {:induction false} UptoFits<S(!new)>(m: Machine<S>, kind: (nat, char) -> bool, s: S, text: string, p: nat)
    requires Laws(m, kind) && p <= |text| && m.part(Upto(m, s, text, p).state) < m.sections && m.part(s) < m.sections
    ensures var c := Upto(m, s, text, p);
            Fits(c.bounds, m.sections, m.part(c.state), p) && Classed(text, c.bounds, m.sections, kind)
    decreases p
  {
    if p > 0 {
      UptoNext(m, s, text, p - 1);
      UptoAlive(m, kind, s, text, p - 1, p);
      UptoFits(m, kind, s, text, p - 1);
      var c := Upto(m, s, text, p - 1);
      assert Law(m, kind, c.state, text[p - 1]);
      StepFits(m, kind, c.state, c.bounds, text, p - 1);
    } else {
      assert text[..0] == [];
    }
  }

  // ---------------------------------------------------------------- running over one section

  // A text that leads from `s` to `s'` and then stays there.
  ghost predicate Leads<S(!new)>(m: Machine<S>, s: S, s': S, text: string) {
    text != [] && m.next(s, text[0]) == s' && forall i :: 1 <= i < |text| ==> m.next(s', text[i]) == s'
  }

  lemma {:induction false} ExtendTwice(b: Bounds, k: nat, e: nat, f: nat)
    ensures Extend(Extend(b, k, e), k, f) == Extend(b, k, f)
  {
  }

  lemma {:induction false} RunLeads<S(!new)>(m: Machine<S>, s: S, s': S, b: Bounds, p: nat, text: string)
    requires Leads(m, s, s', text)
    ensures Run(m, s, b, p, text) == Cut(s', Extend(b, m.part(s'), p + |text|))
    decreases |text|
  {
    var b' := Extend(b, m.part(s'), p + 1);
    if |text| == 1 {
      assert text == [text[0]];
      RunOne(m, s, b, p, text[0]);
    } else {
      var rest := text[1..];
      assert Leads(m, s', s', rest);
      RunLeads(m, s', s', b', p + 1, rest);
      ExtendTwice(b, m.part(s'), p + 1, p + |text|);
    }
  }
}
