/** The variable-name resolver: each distinct reference signature gets one variable, named by
    the first free candidate among its key, the key behind the sanitised node name, and that
    name followed by `_1`, `_2`, ... The variables are kept in the order they were first seen. */
module VariableNames {
  import opened Text
  import opened ReferenceScanner

  /** An entry of the ordered `variables` map: the name and the original reference text. */
  datatype Variable = Variable(name: string, text: string)

  /** The resolver's state: the variables in insertion order, and the two directions of the
      binding between signatures and names. */
  datatype Table = Table(vars: seq<Variable>, nameOf: map<Signature, string>, sigOf: map<string, Signature>)

  const EmptyTable := Table([], map[], map[])

  /** The names bound so far. */
  function Taken(t: Table): set<string> { t.sigOf.Keys }

  /** The two maps are inverse bijections, and the variable list holds each bound name once. */
  ghost predicate Valid(t: Table) {
    && (forall s :: s in t.nameOf ==> t.nameOf[s] in t.sigOf && t.sigOf[t.nameOf[s]] == s)
    && (forall n :: n in t.sigOf ==> t.sigOf[n] in t.nameOf && t.nameOf[t.sigOf[n]] == n)
    && (forall i :: 0 <= i < |t.vars| ==> t.vars[i].name in t.sigOf)
    && (forall n :: n in t.sigOf ==> exists i :: 0 <= i < |t.vars| && t.vars[i].name == n)
    && (forall i, j :: 0 <= i < j < |t.vars| ==> t.vars[i].name != t.vars[j].name)
  }

  lemma EmptyTableValid()
    ensures Valid(EmptyTable)
  {
  }

  /** Two different signatures never share a name. */
  lemma NamesDistinguishSignatures(t: Table, s1: Signature, s2: Signature)
    requires Valid(t) && s1 in t.nameOf && s2 in t.nameOf
    requires t.nameOf[s1] == t.nameOf[s2]
    ensures s1 == s2
  {
  }

  // Candidate names

  /** The third-stage candidate `base_i`. */
  function Numbered(base: string, i: nat): string {
    base + "_" + NatToDecimal(i)
  }

  lemma NumberedInjective(base: string, i: nat, j: nat)
    requires Numbered(base, i) == Numbered(base, j)
    ensures i == j
  {
    var n := |base| + 1;
    assert Numbered(base, i)[n..] == NatToDecimal(i);
    assert Numbered(base, j)[n..] == NatToDecimal(j);
    DecimalInjective(i, j);
  }

  /** The candidates `base_1` ... `base_n`. */
  function NumberedUpTo(base: string, n: nat): (r: set<string>)
    ensures forall j :: 1 <= j <= n ==> Numbered(base, j) in r
  {
    if n == 0 then {} else NumberedUpTo(base, n - 1) + {Numbered(base, n)}
  }

  lemma {:induction false} NumberedUpToSize(base: string, n: nat)
    ensures |NumberedUpTo(base, n)| == n
  {
    if n > 0 {
      NumberedUpToSize(base, n - 1);
      LaterNumberNotListed(base, n - 1, n);
    }
  }

  lemma {:induction false} LaterNumberNotListed(base: string, n: nat, m: nat)
    requires n < m
    ensures Numbered(base, m) !in NumberedUpTo(base, n)
  {
    if n > 0 {
      LaterNumberNotListed(base, n - 1, m);
      if Numbered(base, m) == Numbered(base, n) {
        NumberedInjective(base, m, n);
      }
    }
  }

  /** When `base_1` ... `base_(i-1)` are all taken, at least `i - 1` names are taken: so a free
      candidate turns up among the first `|taken| + 1`. */
  lemma TakenBound(base: string, taken: set<string>, i: nat)
    requires i >= 1
    requires forall j :: 1 <= j < i ==> Numbered(base, j) in taken
    ensures i - 1 <= |taken|
  {
    NumberedUpToSize(base, i - 1);
    NumberedUpToWithin(base, i - 1, taken);
    SubsetSize(NumberedUpTo(base, i - 1), taken);
  }

  lemma {:induction false} NumberedUpToWithin(base: string, n: nat, taken: set<string>)
    requires forall j :: 1 <= j <= n ==> Numbered(base, j) in taken
    ensures NumberedUpTo(base, n) <= taken
  {
    if n > 0 {
      NumberedUpToWithin(base, n - 1, taken);
    }
  }

  lemma SubsetSize(a: set<string>, b: set<string>)
    requires a <= b
    ensures |a| <= |b|
  {
    assert b == a + (b - a);
  }

  /** The smallest `n >= i` whose candidate `base_n` is free. */
  function FirstFreeNumber(base: string, taken: set<string>, i: nat): (r: nat)
    requires i >= 1
    requires forall j :: 1 <= j < i ==> Numbered(base, j) in taken
    ensures i <= r && Numbered(base, r) !in taken
    ensures forall j :: 1 <= j < r ==> Numbered(base, j) in taken
    decreases |taken| + 1 - i
  {
    if Numbered(base, i) !in taken then i
    else
      TakenBound(base, taken, i + 1);
      FirstFreeNumber(base, taken, i + 1)
  }

  /** The first free candidate for a new signature with key `key` and prefixed key `prefixed`. */
  function FreshName(key: string, prefixed: string, taken: set<string>): (r: string)
    ensures r !in taken
    ensures r == key || r == prefixed || exists n: nat :: n >= 1 && r == Numbered(prefixed, n)
  {
    if key !in taken then key
    else if prefixed !in taken then prefixed
    else Numbered(prefixed, FirstFreeNumber(prefixed, taken, 1))
  }

  /** The name escalates in order: the key when it is free, otherwise the prefixed key when that
      is free, otherwise the prefixed key with the smallest free number. */
  lemma FreshNameEscalates(key: string, prefixed: string, taken: set<string>)
    ensures key !in taken ==> FreshName(key, prefixed, taken) == key
    ensures key in taken && prefixed !in taken ==> FreshName(key, prefixed, taken) == prefixed
    ensures key in taken && prefixed in taken ==>
              exists n: nat :: n >= 1 && FreshName(key, prefixed, taken) == Numbered(prefixed, n)
                && forall j :: 1 <= j < n ==> Numbered(prefixed, j) in taken
  {
    if key in taken && prefixed in taken {
      var n := FirstFreeNumber(prefixed, taken, 1);
      assert FreshName(key, prefixed, taken) == Numbered(prefixed, n);
    }
  }

  // Resolving a signature

  /** The variable name for a reference with signature `sig` whose text is `text`: the name bound
      earlier when the signature was seen before, and otherwise a fresh name, bound now and
      appended to the variables. */
  function ResolveIn(t: Table, sig: Signature, text: string): (string, Table) {
    if sig in t.nameOf then (t.nameOf[sig], t)
    else
      var name := FreshName(Key(sig), PrefixedKey(sig), Taken(t));
      (name, Table(t.vars + [Variable(name, text)], t.nameOf[sig := name], t.sigOf[name := sig]))
  }

  /** A signature seen before keeps its name and adds no variable. */
  lemma ResolveReuses(t: Table, sig: Signature, text: string)
    requires sig in t.nameOf
    ensures ResolveIn(t, sig, text) == (t.nameOf[sig], t)
  {
  }

  /** A signature seen for the first time is bound to the first free candidate, and one variable
      with that name and the reference's text is appended. */
  lemma ResolveNew(t: Table, sig: Signature, text: string, name: string)
    requires sig !in t.nameOf && name == FreshName(Key(sig), PrefixedKey(sig), Taken(t))
    ensures ResolveIn(t, sig, text).0 == name
    ensures ResolveIn(t, sig, text).1.vars == t.vars + [Variable(name, text)]
    ensures Taken(ResolveIn(t, sig, text).1) == Taken(t) + {name}
    ensures ResolveIn(t, sig, text).1.nameOf.Keys == t.nameOf.Keys + {sig}
    ensures ResolveIn(t, sig, text).1.nameOf[sig] == name
  {
  }

  /** Resolving keeps the table valid, binds the signature to the name it returns, and only
      appends to the variables. */
  lemma ResolveValid(t: Table, sig: Signature, text: string)
    requires Valid(t)
    ensures Valid(ResolveIn(t, sig, text).1)
    ensures var (name, t') := ResolveIn(t, sig, text);
      sig in t'.nameOf && t'.nameOf[sig] == name && t.vars <= t'.vars
      && (forall s :: s in t.nameOf ==> s in t'.nameOf && t'.nameOf[s] == t.nameOf[s])
  {
    if sig !in t.nameOf {
      var (name, t') := ResolveIn(t, sig, text);
      BindFreshValid(t, sig, name, text);
    }
  }

  /** Binding a signature that has no name yet to a name that is not yet taken keeps the table
      valid. */
  lemma BindFreshValid(t: Table, sig: Signature, name: string, text: string)
    requires Valid(t) && sig !in t.nameOf && name !in t.sigOf
    ensures Valid(Table(t.vars + [Variable(name, text)], t.nameOf[sig := name], t.sigOf[name := sig]))
  {
    var t' := Table(t.vars + [Variable(name, text)], t.nameOf[sig := name], t.sigOf[name := sig]);
    forall s | s in t'.nameOf ensures t'.nameOf[s] in t'.sigOf && t'.sigOf[t'.nameOf[s]] == s {
      if s != sig {
        assert t.nameOf[s] in t.sigOf && t.nameOf[s] != name;
      }
    }
    forall n | n in t'.sigOf ensures t'.sigOf[n] in t'.nameOf && t'.nameOf[t'.sigOf[n]] == n {
      if n != name {
        assert t.sigOf[n] in t.nameOf && t.sigOf[n] != sig;
      }
    }
    forall i | 0 <= i < |t'.vars| ensures t'.vars[i].name in t'.sigOf {
      if i < |t.vars| {
        assert t'.vars[i] == t.vars[i];
      }
    }
    forall n | n in t'.sigOf ensures exists i :: 0 <= i < |t'.vars| && t'.vars[i].name == n {
      if n != name {
        var i :| 0 <= i < |t.vars| && t.vars[i].name == n;
        assert t'.vars[i] == t.vars[i];
      } else {
        assert t'.vars[|t.vars|].name == n;
      }
    }
    forall i, j | 0 <= i < j < |t'.vars| ensures t'.vars[i].name != t'.vars[j].name {
      assert t'.vars[i] == t.vars[i];
      if j < |t.vars| {
        assert t'.vars[j] == t.vars[j];
      } else {
        assert t.vars[i].name in t.sigOf;
      }
    }
  }

  /** The resolver as the source keeps it: two maps and an ordered list, updated in place. */
  class VariableTable {
    var vars: seq<Variable>
    var nameOf: map<Signature, string>
    var sigOf: map<string, Signature>

    function State(): Table
      reads this
    {
      Table(vars, nameOf, sigOf)
    }

    constructor ()
      ensures State() == EmptyTable
    {
      vars, nameOf, sigOf := [], map[], map[];
    }

    /** The name for a reference, retrying numbered candidates until one is free. */
    method Resolve(sig: Signature, text: string) returns (name: string)
      modifies this
      ensures (name, State()) == ResolveIn(old(State()), sig, text)
    {
      if sig in nameOf {
        return nameOf[sig];
      }
      var key, prefixed, taken := Key(sig), PrefixedKey(sig), sigOf.Keys;
      if key !in taken {
        name := key;
      } else if prefixed !in taken {
        name := prefixed;
      } else {
        var i := 1;
        while Numbered(prefixed, i) in taken
          invariant i >= 1 && unchanged(this)
          invariant forall j :: 1 <= j < i ==> Numbered(prefixed, j) in taken
          invariant FirstFreeNumber(prefixed, taken, 1) == FirstFreeNumber(prefixed, taken, i)
          decreases |taken| + 1 - i
        {
          TakenBound(prefixed, taken, i + 1);
          i := i + 1;
        }
        name := Numbered(prefixed, i);
      }
      vars := vars + [Variable(name, text)];
      nameOf := nameOf[sig := name];
      sigOf := sigOf[name := sig];
    }
  }
}
