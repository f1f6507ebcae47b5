/** What the collector hands to the metrics pipeline, and how a planned sequence of publish
    calls plays out when one of the document lookups feeding them fails. */
module Metrics {
  import opened Document

  datatype Kind = Counter | Gauge

  /** A published value: document numbers pass through unchanged; the upstream `weight`
      flag is published as the string "0" or "1". */
  datatype Value = Int(i: int) | Str(s: string)

  datatype Emission = Emission(name: string, kind: Kind, value: Value)

  /** One publish call in the order the collector makes them, or the dictionary lookup
      that raises `KeyError` in its place. */
  datatype Step = Emit(e: Emission) | Missing(field: string)

  /** The outcome of a sequence of steps: what was published, and the key whose lookup
      raised, if one did. */
  datatype Run = Run(out: seq<Emission>, fault: Option<string>)

  predicate AllEmit(steps: seq<Step>) {
    forall i | 0 <= i < |steps| :: steps[i].Emit?
  }

  lemma AllEmitAppend(a: seq<Step>, b: seq<Step>)
    ensures AllEmit(a + b) <==> AllEmit(a) && AllEmit(b)
  {
    if AllEmit(a + b) {
      assert forall i | 0 <= i < |b| :: b[i] == (a + b)[|a| + i];
      assert forall i | 0 <= i < |a| :: a[i] == (a + b)[i];
    }
    if AllEmit(a) && AllEmit(b) {
      forall i | 0 <= i < |a + b|
        ensures (a + b)[i].Emit?
      {
        if i < |a| {
          assert (a + b)[i] == a[i];
        } else {
          assert (a + b)[i] == b[i - |a|];
        }
      }
    }
  }

  function Emissions(steps: seq<Step>): seq<Emission>
    requires AllEmit(steps)
  {
    seq(|steps|, i requires 0 <= i < |steps| => steps[i].e)
  }

  /** Performs the steps in order; the first failing lookup ends the sequence, and the
      emissions already made stay published. */
  function Execute(steps: seq<Step>): (r: Run)
    ensures |r.out| <= |steps|
  {
    if steps == [] then Run([], None)
    else match steps[0]
      case Missing(f) => Run([], Some(f))
      case Emit(e) =>
        var rest := Execute(steps[1..]);
        Run([e] + rest.out, rest.fault)
  }

  /** The steps run to the end exactly when every lookup succeeds, and then every planned
      emission is published, in order. */
  lemma {:induction false} ExecuteAll(steps: seq<Step>)
    ensures Execute(steps).fault.None? <==> AllEmit(steps)
    ensures Execute(steps).fault.None? ==> Execute(steps).out == Emissions(steps)
  {
    if steps != [] && steps[0].Emit? {
      ExecuteAll(steps[1..]);
      assert AllEmit(steps) <==> AllEmit(steps[1..]);
      if AllEmit(steps) {
        assert Emissions(steps) == [steps[0].e] + Emissions(steps[1..]);
      }
    }
  }

  /** One step in front of the run of the steps after it. */
  function Lookup(s: Step, rest: Run): Run {
    match s
    case Missing(f) => Run([], Some(f))
    case Emit(e) => Run([e] + rest.out, rest.fault)
  }

  lemma ExecuteCons(s: Step, rest: seq<Step>)
    ensures Execute([s] + rest) == Lookup(s, Execute(rest))
  {
    assert ([s] + rest)[1..] == rest;
  }

  /** Four lookups in front of a remainder run one at a time. */
  lemma ExecuteFour(s1: Step, s2: Step, s3: Step, s4: Step, rest: seq<Step>)
    ensures Execute([s1, s2, s3, s4] + rest) ==
              Lookup(s1, Lookup(s2, Lookup(s3, Lookup(s4, Execute(rest)))))
  {
    assert [s1, s2, s3, s4] + rest == [s1] + ([s2] + ([s3] + ([s4] + rest)));
    ExecuteCons(s1, [s2] + ([s3] + ([s4] + rest)));
    ExecuteCons(s2, [s3] + ([s4] + rest));
    ExecuteCons(s3, [s4] + rest);
    ExecuteCons(s4, rest);
  }

  /** Publishing `e` moves it from the planned remainder to the published sequence. */
  lemma Advance<T>(before: seq<T>, planned: seq<T>, now: seq<T>, e: T, rest: seq<T>)
    requires before + planned == now + ([e] + rest)
    ensures before + planned == (now + [e]) + rest
  {
  }

  /** Running one sequence after another: a failure in the first skips the second. */
  function Then(a: Run, b: Run): Run {
    if a.fault.Some? then a else Run(a.out + b.out, b.fault)
  }

  lemma {:induction false} ExecuteAppend(a: seq<Step>, b: seq<Step>)
    ensures Execute(a + b) == Then(Execute(a), Execute(b))
  {
    if a == [] {
      assert a + b == b;
    } else {
      assert (a + b)[0] == a[0];
      assert (a + b)[1..] == a[1..] + b;
      ExecuteAppend(a[1..], b);
    }
  }

  /** The published emissions are exactly those of the steps before the first failing
      lookup, and the fault names that lookup's key. */
  lemma {:induction false} ExecuteFirstMissing(steps: seq<Step>, k: nat)
    requires k < |steps| && steps[k].Missing?
    requires AllEmit(steps[..k])
    ensures Execute(steps) == Run(Emissions(steps[..k]), Some(steps[k].field))
  {
    if k > 0 {
      assert steps[1..][..k - 1] == steps[..k][1..];
      ExecuteFirstMissing(steps[1..], k - 1);
      assert steps[0] == steps[..k][0];
      assert Emissions(steps[..k]) == [steps[0].e] + Emissions(steps[1..][..k - 1]);
    }
  }

  /** Whatever happens, the output is a prefix of the planned emissions. */
  lemma {:induction false} ExecutePrefix(steps: seq<Step>)
    ensures AllEmit(steps[..|Execute(steps).out|])
    ensures Execute(steps).out == Emissions(steps[..|Execute(steps).out|])
    ensures Execute(steps).fault.Some? ==>
              |Execute(steps).out| < |steps| &&
              steps[|Execute(steps).out|] == Missing(Execute(steps).fault.value)
  {
    if steps != [] && steps[0].Emit? {
      ExecutePrefix(steps[1..]);
      var n := |Execute(steps[1..]).out|;
      assert steps[..n + 1] == [steps[0]] + steps[1..][..n];
      assert Emissions(steps[..n + 1]) == [steps[0].e] + Emissions(steps[1..][..n]);
    } else if steps != [] {
      assert steps[..0] == [];
    }
  }

  /** Once a prefix has failed, nothing after it runs. */
  lemma ExecuteFaultSticks(a: seq<Step>, b: seq<Step>)
    requires a <= b && Execute(a).fault.Some?
    ensures Execute(b) == Execute(a)
  {
    assert b == a + b[|a|..];
    ExecuteAppend(a, b[|a|..]);
  }

  /** Regrouping appends. Stated once here: asserted inline inside the larger loop and cycle
      proofs, the same equation runs those proofs out of resource. */
  lemma Assoc<T>(a: seq<T>, b: seq<T>, c: seq<T>)
    ensures (a + b) + c == a + (b + c)
  {
  }

  lemma AppendAssoc<T>(a: seq<T>, b: seq<T>, c: seq<T>, d: seq<T>)
    ensures ((a + b) + c) + d == a + ((b + c) + d)
  {
  }

  /** The parts joined in order: the steps of a loop whose iterations contribute the parts. */
  function Concat<T>(parts: seq<seq<T>>): seq<T> {
    if parts == [] then [] else Concat(parts[..|parts| - 1]) + parts[|parts| - 1]
  }

  /** Joined parts run without a failing lookup exactly when every part does. */
  lemma {:induction false} AllEmitConcat(parts: seq<seq<Step>>)
    ensures AllEmit(Concat(parts)) <==> forall i | 0 <= i < |parts| :: AllEmit(parts[i])
  {
    if parts != [] {
      var init := parts[..|parts| - 1];
      AllEmitConcat(init);
      AllEmitAppend(Concat(init), parts[|parts| - 1]);
      assert forall i | 0 <= i < |init| :: init[i] == parts[i];
    }
  }

  lemma ConcatSnoc<T>(parts: seq<seq<T>>, i: nat)
    requires i < |parts|
    ensures Concat(parts[..i + 1]) == Concat(parts[..i]) + parts[i]
  {
    assert parts[..i + 1][..i] == parts[..i];
  }

  /** One more loop iteration runs after the ones before it. */
  lemma ExecuteConcatSnoc(parts: seq<seq<Step>>, i: nat)
    requires i < |parts|
    ensures Execute(Concat(parts[..i + 1])) == Then(Execute(Concat(parts[..i])), Execute(parts[i]))
  {
    ConcatSnoc(parts, i);
    ExecuteAppend(Concat(parts[..i]), parts[i]);
  }

  /** One iteration of a loop over parts: what it publishes goes after what the iterations
      before it published, and a fault in it is the fault of the whole loop. */
  lemma ExecuteConcatStep(base: seq<Emission>, parts: seq<seq<Step>>, i: nat, published: seq<Emission>)
    requires i < |parts|
    requires Execute(Concat(parts[..i])).fault.None?
    requires published == (base + Execute(Concat(parts[..i])).out) + Execute(parts[i]).out
    ensures published == base + Execute(Concat(parts[..i + 1])).out
    ensures Execute(Concat(parts[..i + 1])).fault == Execute(parts[i]).fault
    ensures Execute(parts[i]).fault.Some? ==> Execute(Concat(parts)) == Execute(Concat(parts[..i + 1]))
  {
    ExecuteConcatSnoc(parts, i);
    Assoc(base, Execute(Concat(parts[..i])).out, Execute(parts[i]).out);
    if Execute(parts[i]).fault.Some? {
      ExecuteConcatStops(parts, i);
    }
  }

  lemma {:induction false} ConcatPrefix<T>(parts: seq<seq<T>>, i: nat)
    requires i <= |parts|
    ensures Concat(parts[..i]) <= Concat(parts)
  {
    if i < |parts| {
      var n := |parts| - 1;
      ConcatPrefix(parts[..n], i);
      assert parts[..n][..i] == parts[..i];
    } else {
      assert parts[..i] == parts;
    }
  }

  /** Running the loop's parts one after another: the first part that fails ends the whole
      sequence, keeping everything the earlier parts and its own prefix published. */
  lemma ExecuteConcatStops(parts: seq<seq<Step>>, i: nat)
    requires i < |parts|
    requires Execute(Concat(parts[..i])).fault.None?
    requires Execute(parts[i]).fault.Some?
    ensures Execute(Concat(parts)) ==
              Run(Execute(Concat(parts[..i])).out + Execute(parts[i]).out, Execute(parts[i]).fault)
  {
    ConcatSnoc(parts, i);
    ExecuteAppend(Concat(parts[..i]), parts[i]);
    ConcatPrefix(parts, i + 1);
    ExecuteFaultSticks(Concat(parts[..i + 1]), Concat(parts));
  }
}
