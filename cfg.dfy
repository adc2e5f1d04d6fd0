/** The LL(1) analysis of the Ludus grammar (ludus/cfg.py): FIRST sets by memoised
    recursion, FOLLOW sets by a `while changed` fixpoint, PREDICT sets, the parse
    table and the report of productions whose predict sets overlap. A grammar is
    the `cfg` dictionary: its keys are the nonterminals, in dictionary order, and
    every symbol that is not a key is a terminal; `"λ"` is the empty string. */
module Cfg {
  import opened Results

  type Symbol = string
  type Production = seq<Symbol>

  const LAMBDA: Symbol := "λ"
  const END: Symbol := "$"

  /** The `cfg` dictionary: `order` is the order of its keys. */
  datatype Grammar = Grammar(order: seq<Symbol>, rules: map<Symbol, seq<Production>>)

  /** The key order lists every key once. */
  ghost predicate WellFormed(g: Grammar) {
    && (forall i, j :: 0 <= i < j < |g.order| ==> g.order[i] != g.order[j])
    && g.rules.Keys == set a | a in g.order
  }

  // ---- FIRST: `first_of` as a function ------------------------------------------

  /** `first_of(x)` without the memo, `fuel` bounding the depth of nested calls.
      Python recurses without bound on a left-recursive grammar and stops with a
      `RecursionError`; running out of fuel stands for that. */
  function FirstSym(g: Grammar, x: Symbol, fuel: nat): Result<set<Symbol>>
    decreases fuel, 0, 0
  {
    if x !in g.rules then Ok({x})
    else if fuel == 0 then Fail(RecursionError, "maximum recursion depth exceeded")
    else FirstAlts(g, g.rules[x], fuel - 1)
  }

  /** The union of what the productions `ps` contribute. */
  function FirstAlts(g: Grammar, ps: seq<Production>, fuel: nat): Result<set<Symbol>>
    decreases fuel, 2, |ps|
  {
    if ps == [] then Ok({})
    else
      var a :- FirstAlts(g, ps[..|ps| - 1], fuel);
      var b :- FirstFrom(g, ps[|ps| - 1], 0, fuel);
      Ok(a + b)
  }

  /** What the symbols of `p` from index `k` contribute: a terminal stops the scan,
      a nonterminal adds its FIRST set without λ and stops unless λ is in it, and
      running past the end adds λ. */
  function FirstFrom(g: Grammar, p: Production, k: nat, fuel: nat): Result<set<Symbol>>
    requires k <= |p|
    decreases fuel, 1, |p| - k
  {
    if k == |p| then Ok({LAMBDA})
    else if p[k] !in g.rules then Ok({p[k]})
    else
      var s :- FirstSym(g, p[k], fuel);
      if LAMBDA !in s then Ok(s)
      else
        var rest :- FirstFrom(g, p, k + 1, fuel);
        Ok((s - {LAMBDA}) + rest)
  }

  /** `s` is the FIRST set of `x`: some depth of recursion computes it. */
  ghost predicate IsFirst(g: Grammar, x: Symbol, s: set<Symbol>) {
    exists n :: FirstSym(g, x, n) == Ok(s)
  }

  /** More fuel never changes a result that was reached. */
  lemma {:induction false} FirstSymMono(g: Grammar, x: Symbol, n: nat, m: nat)
    requires n <= m && FirstSym(g, x, n).Ok?
    ensures FirstSym(g, x, m) == FirstSym(g, x, n)
    decreases n, 0, 0
  {
    if x in g.rules {
      FirstAltsMono(g, g.rules[x], n - 1, m - 1);
    }
  }

  lemma {:induction false} FirstAltsMono(g: Grammar, ps: seq<Production>, n: nat, m: nat)
    requires n <= m && FirstAlts(g, ps, n).Ok?
    ensures FirstAlts(g, ps, m) == FirstAlts(g, ps, n)
    decreases n, 2, |ps|
  {
    if ps != [] {
      FirstAltsMono(g, ps[..|ps| - 1], n, m);
      FirstFromMono(g, ps[|ps| - 1], 0, n, m);
    }
  }

  lemma {:induction false} FirstFromMono(g: Grammar, p: Production, k: nat, n: nat, m: nat)
    requires k <= |p| && n <= m && FirstFrom(g, p, k, n).Ok?
    ensures FirstFrom(g, p, k, m) == FirstFrom(g, p, k, n)
    decreases n, 1, |p| - k
  {
    if k < |p| && p[k] in g.rules {
      FirstSymMono(g, p[k], n, m);
      if LAMBDA in FirstSym(g, p[k], n).value {
        FirstFromMono(g, p, k + 1, n, m);
      }
    }
  }

  /** Two depths that both reach a result reach the same one. */
  lemma FirstSymAgree(g: Grammar, x: Symbol, a: nat, b: nat)
    requires FirstSym(g, x, a).Ok? && FirstSym(g, x, b).Ok?
    ensures FirstSym(g, x, a) == FirstSym(g, x, b)
  {
    if a <= b { FirstSymMono(g, x, a, b); } else { FirstSymMono(g, x, b, a); }
  }

  lemma FirstFromAgree(g: Grammar, p: Production, k: nat, a: nat, b: nat)
    requires k <= |p| && FirstFrom(g, p, k, a).Ok? && FirstFrom(g, p, k, b).Ok?
    ensures FirstFrom(g, p, k, a) == FirstFrom(g, p, k, b)
  {
    if a <= b { FirstFromMono(g, p, k, a, b); } else { FirstFromMono(g, p, k, b, a); }
  }

  lemma FirstAltsAgree(g: Grammar, ps: seq<Production>, a: nat, b: nat)
    requires FirstAlts(g, ps, a).Ok? && FirstAlts(g, ps, b).Ok?
    ensures FirstAlts(g, ps, a) == FirstAlts(g, ps, b)
  {
    if a <= b { FirstAltsMono(g, ps, a, b); } else { FirstAltsMono(g, ps, b, a); }
  }

  /** A FIRST set is unique. */
  lemma IsFirstUnique(g: Grammar, x: Symbol, s: set<Symbol>, t: set<Symbol>)
    requires IsFirst(g, x, s) && IsFirst(g, x, t)
    ensures s == t
  {
    var a :| FirstSym(g, x, a) == Ok(s);
    var b :| FirstSym(g, x, b) == Ok(t);
    FirstSymAgree(g, x, a, b);
  }

  /** The productions before index `j` reach a result whenever all of them do. */
  lemma {:induction false} FirstAltsPrefix(g: Grammar, ps: seq<Production>, j: nat, fuel: nat)
    requires j <= |ps| && FirstAlts(g, ps, fuel).Ok?
    ensures FirstAlts(g, ps[..j], fuel).Ok?
    decreases |ps|
  {
    if j < |ps| {
      assert ps[..|ps| - 1][..j] == ps[..j];
      FirstAltsPrefix(g, ps[..|ps| - 1], j, fuel);
    } else {
      assert ps[..j] == ps;
    }
  }

  /** FIRST sets hold terminals only, and λ. */
  lemma {:induction false} FirstIsTerminal(g: Grammar, x: Symbol, n: nat, t: Symbol)
    requires FirstSym(g, x, n).Ok? && t in FirstSym(g, x, n).value
    ensures t !in g.rules || t == LAMBDA
    decreases n, 0, 0
  {
    if x in g.rules {
      FirstAltsIsTerminal(g, g.rules[x], n - 1, t);
    }
  }

  lemma {:induction false} FirstAltsIsTerminal(g: Grammar, ps: seq<Production>, n: nat, t: Symbol)
    requires FirstAlts(g, ps, n).Ok? && t in FirstAlts(g, ps, n).value
    ensures t !in g.rules || t == LAMBDA
    decreases n, 2, |ps|
  {
    if t in FirstAlts(g, ps[..|ps| - 1], n).value {
      FirstAltsIsTerminal(g, ps[..|ps| - 1], n, t);
    } else {
      FirstFromIsTerminal(g, ps[|ps| - 1], 0, n, t);
    }
  }

  lemma {:induction false} FirstFromIsTerminal(g: Grammar, p: Production, k: nat, n: nat, t: Symbol)
    requires k <= |p| && FirstFrom(g, p, k, n).Ok? && t in FirstFrom(g, p, k, n).value
    ensures t !in g.rules || t == LAMBDA
    decreases n, 1, |p| - k
  {
    if k < |p| && p[k] in g.rules {
      if t in FirstSym(g, p[k], n).value {
        FirstIsTerminal(g, p[k], n, t);
      } else {
        FirstFromIsTerminal(g, p, k + 1, n, t);
      }
    }
  }

  /** λ is in what `p` contributes from `k` exactly when a run of nullable
      nonterminals from `k` reaches the end of `p` or the terminal λ. */
  lemma {:induction false} LambdaFrom(g: Grammar, p: Production, k: nat, n: nat)
    requires k <= |p| && FirstFrom(g, p, k, n).Ok?
    ensures LAMBDA in FirstFrom(g, p, k, n).value <==> NullableTail(g, p, k, n)
    decreases |p| - k
  {
    if k == |p| {
      assert NullableFrom(g, p, k, k, n);
    } else if p[k] !in g.rules {
      if p[k] == LAMBDA {
        assert NullableFrom(g, p, k, k, n);
      } else {
        forall e | k < e <= |p| ensures !NullableFrom(g, p, k, e, n) {
          assert p[k] !in g.rules;
        }
      }
    } else {
      var s := FirstSym(g, p[k], n).value;
      if LAMBDA in s {
        LambdaFrom(g, p, k + 1, n);
        if LAMBDA in FirstFrom(g, p, k + 1, n).value {
          var e :| k + 1 <= e <= |p| && NullableFrom(g, p, k + 1, e, n) && (e == |p| || (p[e] == LAMBDA && LAMBDA !in g.rules));
          assert NullableFrom(g, p, k, e, n);
        } else {
          forall e | k <= e <= |p| && NullableFrom(g, p, k, e, n)
            ensures !(e == |p| || (p[e] == LAMBDA && LAMBDA !in g.rules))
          {
            if e == k {
              assert p[k] in g.rules;
            } else {
              assert NullableFrom(g, p, k + 1, e, n);
            }
          }
        }
      } else {
        forall e | k < e <= |p| ensures !NullableFrom(g, p, k, e, n) {
          assert LAMBDA !in s;
        }
        forall e | k <= e <= |p| && NullableFrom(g, p, k, e, n)
          ensures e == k
        {
        }
      }
    }
  }

  /** The symbols of `p` from `k` up to `e` are nullable nonterminals. */
  predicate NullableFrom(g: Grammar, p: Production, k: nat, e: nat, fuel: nat)
    requires k <= e <= |p|
  {
    forall i :: k <= i < e ==> p[i] in g.rules && FirstSym(g, p[i], fuel).Ok? && LAMBDA in FirstSym(g, p[i], fuel).value
  }

  /** What several productions contribute is what one of them contributes. */
  lemma {:induction false} FirstAltsMember(g: Grammar, ps: seq<Production>, n: nat, t: Symbol)
    requires FirstAlts(g, ps, n).Ok?
    ensures forall j :: 0 <= j < |ps| ==> FirstFrom(g, ps[j], 0, n).Ok?
    ensures t in FirstAlts(g, ps, n).value <==> exists j :: 0 <= j < |ps| && t in FirstFrom(g, ps[j], 0, n).value
    decreases |ps|
  {
    if ps != [] {
      var init := ps[..|ps| - 1];
      FirstAltsMember(g, init, n, t);
      assert forall j :: 0 <= j < |init| ==> ps[j] == init[j];
    }
  }

  /** λ is in FIRST(A) exactly when some production of A starts with a run of
      nullable nonterminals that reaches its end or the terminal λ (a production
      `["λ"]` is the case of an empty run). */
  lemma LambdaInFirst(g: Grammar, a: Symbol, n: nat)
    requires a in g.rules && FirstSym(g, a, n).Ok?
    ensures n >= 1
    ensures LAMBDA in FirstSym(g, a, n).value <==>
      exists j :: 0 <= j < |g.rules[a]| && NullableTail(g, g.rules[a][j], 0, n - 1)
  {
    var ps, m := g.rules[a], n - 1;
    assert FirstSym(g, a, n) == FirstAlts(g, ps, m);
    FirstAltsMember(g, ps, m, LAMBDA);
    forall j | 0 <= j < |ps| ensures LAMBDA in FirstFrom(g, ps[j], 0, m).value <==> NullableTail(g, ps[j], 0, m) {
      LambdaFrom(g, ps[j], 0, m);
    }
  }

  /** From index `k` a run of nullable nonterminals reaches the end of `p` or the
      terminal λ. */
  ghost predicate NullableTail(g: Grammar, p: Production, k: nat, fuel: nat)
    requires k <= |p|
  {
    exists e: nat :: k <= e <= |p| && NullableFrom(g, p, k, e, fuel) && (e == |p| || (p[e] == LAMBDA && LAMBDA !in g.rules))
  }

  /** All productions reach a result exactly when each of them does. */
  lemma {:induction false} FirstAltsAll(g: Grammar, ps: seq<Production>, n: nat)
    ensures FirstAlts(g, ps, n).Ok? <==> forall j :: 0 <= j < |ps| ==> FirstFrom(g, ps[j], 0, n).Ok?
    decreases |ps|
  {
    if ps != [] {
      var init := ps[..|ps| - 1];
      FirstAltsAll(g, init, n);
      assert forall j :: 0 <= j < |init| ==> ps[j] == init[j];
    }
  }

  /** After the symbols of `p` before `k`, each a nullable nonterminal, `acc` holds
      what they contributed at every depth from `m` on. */
  ghost predicate SoFar(g: Grammar, p: Production, k: nat, m: nat, acc: set<Symbol>) {
    k <= |p| &&
    forall q: nat :: m <= q && FirstFrom(g, p, k, q).Ok? ==> FirstFrom(g, p, 0, q) == Ok(acc + FirstFrom(g, p, k, q).value)
  }

  lemma SoFarStart(g: Grammar, p: Production)
    ensures SoFar(g, p, 0, 0, {})
  {
    forall q: nat | FirstFrom(g, p, 0, q).Ok? ensures FirstFrom(g, p, 0, q) == Ok({} + FirstFrom(g, p, 0, q).value) {
      assert {} + FirstFrom(g, p, 0, q).value == FirstFrom(g, p, 0, q).value;
    }
  }

  /** One nonterminal of a production scanned: it ends the scan or extends `acc`. */
  lemma SymbolStep(g: Grammar, p: Production, k: nat, m: nat, sn: nat, m': nat, acc: set<Symbol>, s: set<Symbol>)
    requires k < |p| && p[k] in g.rules && m <= m' && sn <= m'
    requires FirstSym(g, p[k], sn) == Ok(s) && SoFar(g, p, k, m, acc)
    ensures LAMBDA !in s ==> FirstFrom(g, p, 0, m') == Ok(acc + s)
    ensures LAMBDA in s ==> SoFar(g, p, k + 1, m', acc + (s - {LAMBDA}))
  {
    forall q: nat | m' <= q ensures FirstSym(g, p[k], q) == Ok(s) {
      FirstSymMono(g, p[k], sn, q);
    }
    if LAMBDA !in s {
      assert FirstFrom(g, p, k, m') == Ok(s);
    } else {
      forall q: nat | m' <= q && FirstFrom(g, p, k + 1, q).Ok?
        ensures FirstFrom(g, p, 0, q) == Ok(acc + (s - {LAMBDA}) + FirstFrom(g, p, k + 1, q).value)
      {
        assert FirstSym(g, p[k], q) == Ok(s);
        var rest := FirstFrom(g, p, k + 1, q).value;
        assert FirstFrom(g, p, k, q) == Ok((s - {LAMBDA}) + rest);
        assert FirstFrom(g, p, 0, q) == Ok(acc + FirstFrom(g, p, k, q).value);
        assert acc + ((s - {LAMBDA}) + rest) == acc + (s - {LAMBDA}) + rest;
      }
    }
  }

  /** One more production added to the union. */
  lemma AltsStep(g: Grammar, ps: seq<Production>, j: nat, m: nat, cn: nat, m': nat)
    requires j < |ps| && m <= m' && cn <= m'
    requires FirstAlts(g, ps[..j], m).Ok? && FirstFrom(g, ps[j], 0, cn).Ok?
    ensures FirstAlts(g, ps[..j + 1], m') == Ok(FirstAlts(g, ps[..j], m).value + FirstFrom(g, ps[j], 0, cn).value)
  {
    FirstAltsMono(g, ps[..j], m, m');
    FirstFromMono(g, ps[j], 0, cn, m');
    assert ps[..j + 1][..j] == ps[..j];
  }

  // ---- FIRST: `compute_first_set` and its memo ----------------------------------

  /** The memo covers the nonterminals, every non-empty entry has a recorded
      depth, and every recorded depth reaches the stored set. */
  ghost predicate MemoValid(g: Grammar, memo: map<Symbol, set<Symbol>>, depth: map<Symbol, nat>) {
    && memo.Keys == g.rules.Keys
    && (forall y :: y in memo && memo[y] != {} ==> y in depth)
    && (forall y :: y in depth ==> y in memo && FirstSym(g, y, depth[y]) == Ok(memo[y]))
  }

  /** Storing a set that is reached at depth `n` keeps the memo valid. */
  lemma MemoStore(g: Grammar, memo: map<Symbol, set<Symbol>>, depth: map<Symbol, nat>, x: Symbol, s: set<Symbol>, n: nat)
    requires MemoValid(g, memo, depth) && x in g.rules && FirstSym(g, x, n) == Ok(s)
    ensures MemoValid(g, memo[x := s], depth[x := n])
  {
  }

  /** The state of `compute_first_set`: the memo `first_set`, which starts with an
      empty set for every nonterminal. `depth` records, for each nonterminal
      already computed, a depth at which `FirstSym` reaches the stored set. */
  class FirstSets {
    const g: Grammar
    var firstSet: map<Symbol, set<Symbol>>
    ghost var depth: map<Symbol, nat>

    ghost predicate Valid()
      reads this
    {
      MemoValid(g, firstSet, depth)
    }

    constructor(g: Grammar)
      ensures this.g == g && Valid() && depth == map[]
      ensures firstSet == map a | a in g.rules :: {}
    {
      this.g := g;
      firstSet := map a | a in g.rules :: {};
      depth := map[];
    }

    /** `first_of(symbol)`, `fuel` bounding the depth of nested calls. A memo entry
        is used only when it is not empty, as in the source. The result is the
        FIRST set whenever it is computed, and it is computed whenever `FirstSym`
        reaches a result within the same depth. */
    method FirstOf(symbol: Symbol, fuel: nat) returns (r: Result<set<Symbol>>, ghost n: nat)
      requires Valid()
      modifies this`firstSet, this`depth
      ensures Valid() && old(depth).Keys <= depth.Keys
      ensures r.Ok? ==> FirstSym(g, symbol, n) == r
      ensures FirstSym(g, symbol, fuel).Ok? ==> r == FirstSym(g, symbol, fuel)
      ensures r.Err? ==> r.exc.kind == RecursionError
      ensures symbol in g.rules && r.Ok? ==> symbol in depth
      decreases fuel, 0
    {
      if symbol !in g.rules {
        return Ok({symbol}), 0;
      }
      if firstSet[symbol] != {} {
        r, n := Ok(firstSet[symbol]), depth[symbol];
        if FirstSym(g, symbol, fuel).Ok? {
          FirstSymAgree(g, symbol, fuel, n);
        }
        return;
      }
      if fuel == 0 {
        return Fail(RecursionError, "maximum recursion depth exceeded"), 0;
      }
      var prods := g.rules[symbol];
      var result: set<Symbol> := {};
      ghost var m: nat := 0;
      var j := 0;
      while j < |prods|
        invariant Valid() && old(depth).Keys <= depth.Keys && 0 <= j <= |prods|
        invariant FirstAlts(g, prods[..j], m) == Ok(result)
      {
        // The source adds each production's symbols to `result` as it scans them;
        // `ProductionFirst` returns what one production adds.
        var c, cn := ProductionFirst(prods[j], fuel - 1);
        if c.Err? {
          FirstAltsAll(g, prods, fuel - 1);
          return Err(c.exc), 0;
        }
        ghost var m' := if m < cn then cn else m;
        AltsStep(g, prods, j, m, cn, m');
        result := result + c.value;
        m := m';
        j := j + 1;
      }
      assert prods[..j] == prods;
      MemoStore(g, firstSet, depth, symbol, result, m + 1);
      firstSet := firstSet[symbol := result];
      depth := depth[symbol := m + 1];
      r, n := Ok(result), m + 1;
      if FirstSym(g, symbol, fuel).Ok? {
        FirstSymAgree(g, symbol, fuel, n);
      }
    }

    /** The inner loop of `first_of` over the symbols of one production, with the
        `for ... else` that adds λ when no symbol stops the scan. */
    method ProductionFirst(p: Production, fuel: nat) returns (r: Result<set<Symbol>>, ghost n: nat)
      requires Valid()
      modifies this`firstSet, this`depth
      ensures Valid() && old(depth).Keys <= depth.Keys
      ensures r.Ok? ==> FirstFrom(g, p, 0, n) == r
      ensures FirstFrom(g, p, 0, fuel).Ok? ==> r == FirstFrom(g, p, 0, fuel)
      ensures r.Err? ==> r.exc.kind == RecursionError
      decreases fuel, 1
    {
      var acc: set<Symbol> := {};
      ghost var m: nat := 0;
      var k := 0;
      SoFarStart(g, p);
      while k < |p|
        invariant Valid() && old(depth).Keys <= depth.Keys && 0 <= k <= |p|
        invariant SoFar(g, p, k, m, acc)
        invariant FirstFrom(g, p, 0, fuel).Ok? ==> FirstFrom(g, p, k, fuel).Ok?
      {
        if p[k] !in g.rules {
          r, n := Ok(acc + {p[k]}), m;
          break;
        }
        var s, sn := FirstOf(p[k], fuel);
        if s.Err? {
          return Err(s.exc), 0;
        }
        ghost var m' := if m < sn then sn else m;
        SymbolStep(g, p, k, m, sn, m', acc, s.value);
        if LAMBDA !in s.value {
          r, n := Ok(acc + s.value), m';
          break;
        }
        acc := acc + (s.value - {LAMBDA});
        m := m';
        k := k + 1;
      }
      if k == |p| {
        r, n := Ok(acc + {LAMBDA}), m;
      }
      if FirstFrom(g, p, 0, fuel).Ok? {
        FirstFromAgree(g, p, 0, fuel, n);
      }
    }
  }
  /** `compute_first_set`: `first_of` for every nonterminal in dictionary order, each
      call starting with the same depth `fuel`. The table maps every nonterminal to
      its FIRST set; it is produced whenever every nonterminal's FIRST set is
      reached within that depth. */
  method ComputeFirstSet(g: Grammar, fuel: nat) returns (r: Result<map<Symbol, set<Symbol>>>)
    requires WellFormed(g)
    ensures r.Ok? ==> r.value.Keys == g.rules.Keys && forall a :: a in g.rules ==> IsFirst(g, a, r.value[a])
    ensures (forall a :: a in g.rules ==> FirstSym(g, a, fuel).Ok?) ==> r.Ok?
    ensures r.Err? ==> r.exc.kind == RecursionError
  {
    var sets := new FirstSets(g);
    var i := 0;
    while i < |g.order|
      invariant sets.g == g && sets.Valid() && 0 <= i <= |g.order|
      invariant forall a :: a in g.order[..i] ==> a in sets.depth
    {
      var a := g.order[i];
      assert a in g.rules;
      var s, n := sets.FirstOf(a, fuel);
      if s.Err? {
        return Err(s.exc);
      }
      TakeOneMore(g.order, i);
      i := i + 1;
    }
    assert g.order[..i] == g.order;
    forall a | a in g.rules ensures IsFirst(g, a, sets.firstSet[a]) {
      assert FirstSym(g, a, sets.depth[a]) == Ok(sets.firstSet[a]);
    }
    return Ok(sets.firstSet);
  }

  lemma TakeOneMore<T>(s: seq<T>, i: nat)
    requires i < |s|
    ensures s[..i + 1] == s[..i] + [s[i]]
  {
  }

  // ---- FOLLOW: `compute_follow_set` ---------------------------------------------

  type Table = map<Symbol, set<Symbol>>

  /** What the occurrence `p[i]` of a nonterminal, in a production of `a`, adds to
      its FOLLOW set. Only the next symbol is looked at: a nonterminal adds its
      FIRST set without λ, and its FOLLOW set as well when λ is in that FIRST set;
      a terminal adds itself; at the end of the production the FOLLOW set of `a` is
      added. */
  function Contribution(g: Grammar, first: Table, F: Table, a: Symbol, p: Production, i: nat): set<Symbol>
    requires g.rules.Keys <= first.Keys && F.Keys == g.rules.Keys && a in g.rules && i < |p|
  {
    if i + 1 < |p| then
      var beta := p[i + 1];
      if beta in g.rules then (first[beta] - {LAMBDA}) + (if LAMBDA in first[beta] then F[beta] else {})
      else {beta}
    else F[a]
  }

  /** The occurrences of nonterminals before `upto` in `p` add nothing new to `F`. */
  ghost predicate ProdClosed(g: Grammar, first: Table, F: Table, a: Symbol, p: Production, upto: nat)
    requires g.rules.Keys <= first.Keys && F.Keys == g.rules.Keys && a in g.rules && upto <= |p|
  {
    forall i :: 0 <= i < upto && p[i] in g.rules ==> Contribution(g, first, F, a, p, i) <= F[p[i]]
  }

  /** The same for the first `upto` productions of `a`. */
  ghost predicate RuleClosed(g: Grammar, first: Table, F: Table, a: Symbol, upto: nat)
    requires g.rules.Keys <= first.Keys && F.Keys == g.rules.Keys && a in g.rules && upto <= |g.rules[a]|
  {
    forall j :: 0 <= j < upto ==> ProdClosed(g, first, F, a, g.rules[a][j], |g.rules[a][j]|)
  }

  /** The same for the nonterminals before `upto` in dictionary order. */
  ghost predicate PassClosed(g: Grammar, first: Table, F: Table, upto: nat)
    requires WellFormed(g) && g.rules.Keys <= first.Keys && F.Keys == g.rules.Keys && upto <= |g.order|
  {
    forall k :: 0 <= k < upto ==> g.order[k] in g.rules && RuleClosed(g, first, F, g.order[k], |g.rules[g.order[k]]|)
  }

  /** No occurrence anywhere adds anything new to `F`. */
  ghost predicate Closed(g: Grammar, first: Table, F: Table)
    requires g.rules.Keys <= first.Keys && F.Keys == g.rules.Keys
  {
    forall a :: a in g.rules ==> RuleClosed(g, first, F, a, |g.rules[a]|)
  }

  /** `F` is a FOLLOW table for `start`: `$` follows `start`, and `F` is closed. */
  ghost predicate IsFollow(g: Grammar, first: Table, start: Symbol, F: Table)
    requires g.rules.Keys <= first.Keys
  {
    F.Keys == g.rules.Keys && start in F && END in F[start] && Closed(g, first, F)
  }

  /** `H` is closed and covers the nonterminals. */
  ghost predicate Bound(g: Grammar, first: Table, H: Table)
    requires g.rules.Keys <= first.Keys
  {
    H.Keys == g.rules.Keys && Closed(g, first, H)
  }

  /** Entry by entry, `F` is contained in `H`. */
  ghost predicate Below(F: Table, H: Table) {
    forall x :: x in F ==> x in H && F[x] <= H[x]
  }

  /** Every symbol a FOLLOW set can hold: `$`, the symbols of the productions and
      the members of the FIRST sets. */
  ghost function Universe(g: Grammar, first: Table): set<Symbol>
    requires g.rules.Keys <= first.Keys
  {
    {END}
    + (set a, q, x | a in g.rules && q in g.rules[a] && x in q :: x)
    + (set a, x | a in g.rules && x in first[a] :: x)
  }

  ghost predicate Bounded(F: Table, u: set<Symbol>) {
    forall x :: x in F ==> F[x] <= u
  }

  /** The entries of `F` as pairs, and all the pairs they can reach. */
  ghost function Pairs(F: Table): set<(Symbol, Symbol)> {
    set x, t | x in F && t in F[x] :: (x, t)
  }

  ghost function AllPairs(g: Grammar, u: set<Symbol>): set<(Symbol, Symbol)> {
    set x, t | x in g.rules && t in u :: (x, t)
  }

  /** Adding one occurrence's contribution keeps `F` below every closed table that
      it was below. */
  lemma StepBelow(g: Grammar, first: Table, F: Table, a: Symbol, j: nat, i: nat, H: Table)
    requires g.rules.Keys <= first.Keys && F.Keys == g.rules.Keys && a in g.rules && j < |g.rules[a]|
    requires i < |g.rules[a][j]| && g.rules[a][j][i] in g.rules
    requires Bound(g, first, H) && Below(F, H)
    ensures var p := g.rules[a][j]; Below(F[p[i] := F[p[i]] + Contribution(g, first, F, a, p, i)], H)
  {
    var p := g.rules[a][j];
    assert RuleClosed(g, first, H, a, |g.rules[a]|);
    assert ProdClosed(g, first, H, a, p, |p|);
    assert Contribution(g, first, F, a, p, i) <= Contribution(g, first, H, a, p, i);
  }

  /** A contribution stays within the universe of a bounded table. */
  lemma StepBounded(g: Grammar, first: Table, F: Table, a: Symbol, j: nat, i: nat)
    requires g.rules.Keys <= first.Keys && F.Keys == g.rules.Keys && a in g.rules && j < |g.rules[a]|
    requires i < |g.rules[a][j]| && Bounded(F, Universe(g, first))
    ensures Contribution(g, first, F, a, g.rules[a][j], i) <= Universe(g, first)
  {
    var p := g.rules[a][j];
    if i + 1 < |p| {
      var beta := p[i + 1];
      assert p in g.rules[a] && beta in p;
      if beta in g.rules {
        forall x | x in first[beta] ensures x in Universe(g, first) {
          assert beta in g.rules && x in first[beta];
        }
      }
    }
  }

  /** A table that grows strictly within the universe leaves fewer pairs to reach. */
  lemma PairsGrow(g: Grammar, u: set<Symbol>, F: Table, F': Table)
    requires F.Keys == g.rules.Keys && F'.Keys == g.rules.Keys && Below(F, F') && F != F' && Bounded(F', u)
    ensures |AllPairs(g, u) - Pairs(F')| < |AllPairs(g, u) - Pairs(F)|
  {
    var x :| x in F && F[x] != F'[x];
    var t :| t in F'[x] && t !in F[x];
    assert (x, t) in Pairs(F') && (x, t) !in Pairs(F);
    assert Pairs(F) < Pairs(F') <= AllPairs(g, u);
    StrictSubsetSmaller(AllPairs(g, u) - Pairs(F'), AllPairs(g, u) - Pairs(F));
  }

  lemma StrictSubsetSmaller<T>(a: set<T>, b: set<T>)
    requires a < b
    ensures |a| < |b|
  {
    var x :| x in b && x !in a;
    assert b == a + (b - a);
    assert x in b - a;
  }

  /** If `F` grew from `F0` to `F1` and then to `F2`, with `F1` already different, it
      did not come back. */
  lemma StillChanged(F0: Table, F1: Table, F2: Table)
    requires F0.Keys == F1.Keys && Below(F0, F1) && Below(F1, F2) && F0 != F1
    ensures F0 != F2
  {
    var x :| x in F0 && F0[x] != F1[x];
    assert F0[x] < F1[x];
  }

  /** The updates of `compute_follow_set` for the occurrence `p[i]` of a
      nonterminal, in the order the source makes them. */
  method AddFollow(g: Grammar, first: Table, a: Symbol, p: Production, i: nat, F0: Table) returns (F: Table)
    requires g.rules.Keys <= first.Keys && F0.Keys == g.rules.Keys && a in g.rules && i < |p| && p[i] in g.rules
    ensures F == F0[p[i] := F0[p[i]] + Contribution(g, first, F0, a, p, i)]
  {
    var item := p[i];
    ghost var c := Contribution(g, first, F0, a, p, i);
    F := F0;
    if i + 1 < |p| {
      var beta := p[i + 1];
      if beta in g.rules {
        F := F[item := F[item] + (first[beta] - {LAMBDA})];
        if LAMBDA in first[beta] {
          // When `beta` is `item` itself, the second update reads the first.
          assert F[beta] == F0[beta] || F[beta] == F0[item] + (first[beta] - {LAMBDA});
          F := F[item := F[item] + F[beta]];
        }
      } else {
        F := F[item := F[item] + {beta}];
      }
    } else {
      F := F[item := F[item] + F[a]];
    }
    assert F[item] == F0[item] + c;
  }

  /** What one update does to the facts the loops keep. */
  lemma OccurrenceStep(g: Grammar, first: Table, F0: Table, Fi: Table, a: Symbol, j: nat, i: nat)
    requires g.rules.Keys <= first.Keys && F0.Keys == g.rules.Keys && Fi.Keys == g.rules.Keys && Below(F0, Fi)
    requires a in g.rules && j < |g.rules[a]| && i < |g.rules[a][j]| && g.rules[a][j][i] in g.rules
    ensures var p := g.rules[a][j]; var F := Fi[p[i] := Fi[p[i]] + Contribution(g, first, Fi, a, p, i)];
      && F.Keys == g.rules.Keys && Below(F0, F) && Below(Fi, F)
      && (F[p[i]] == Fi[p[i]] ==> F == Fi && Contribution(g, first, Fi, a, p, i) <= Fi[p[i]])
      && (F[p[i]] != Fi[p[i]] ==> F != F0)
      && (forall H :: Bound(g, first, H) && Below(Fi, H) ==> Below(F, H))
      && (Bounded(Fi, Universe(g, first)) ==> Bounded(F, Universe(g, first)))
  {
    var p := g.rules[a][j];
    var F := Fi[p[i] := Fi[p[i]] + Contribution(g, first, Fi, a, p, i)];
    forall H | Bound(g, first, H) && Below(Fi, H) ensures Below(F, H) {
      StepBelow(g, first, Fi, a, j, i, H);
    }
    if Bounded(Fi, Universe(g, first)) {
      StepBounded(g, first, Fi, a, j, i);
    }
    if F[p[i]] != Fi[p[i]] {
      assert F0[p[i]] <= Fi[p[i]] < F[p[i]];
    }
  }

  /** The inner loop of `compute_follow_set` over one production `g.rules[a][j]`.
      `changed` says whether some entry grew, and when nothing grew every
      occurrence in the production was already accounted for. */
  method FollowProduction(g: Grammar, first: Table, a: Symbol, j: nat, F0: Table) returns (F: Table, changed: bool)
    requires g.rules.Keys <= first.Keys && F0.Keys == g.rules.Keys && a in g.rules && j < |g.rules[a]|
    ensures F.Keys == g.rules.Keys && Below(F0, F) && (changed <==> F != F0)
    ensures !changed ==> ProdClosed(g, first, F0, a, g.rules[a][j], |g.rules[a][j]|)
    ensures forall H :: Bound(g, first, H) && Below(F0, H) ==> Below(F, H)
    ensures Bounded(F0, Universe(g, first)) ==> Bounded(F, Universe(g, first))
  {
    var p := g.rules[a][j];
    F, changed := F0, false;
    var i := 0;
    while i < |p|
      invariant 0 <= i <= |p| && F.Keys == g.rules.Keys && Below(F0, F) && (changed <==> F != F0)
      invariant !changed ==> ProdClosed(g, first, F0, a, p, i)
      invariant forall H :: Bound(g, first, H) && Below(F0, H) ==> Below(F, H)
      invariant Bounded(F0, Universe(g, first)) ==> Bounded(F, Universe(g, first))
    {
      var item := p[i];
      if item in g.rules {
        var before := F[item];
        OccurrenceStep(g, first, F0, F, a, j, i);
        F := AddFollow(g, first, a, p, i, F);
        if F[item] != before {
          changed := true;
        }
      }
      i := i + 1;
    }
  }

  /** The loop over the productions of `a`. */
  method FollowRule(g: Grammar, first: Table, a: Symbol, F0: Table) returns (F: Table, changed: bool)
    requires g.rules.Keys <= first.Keys && F0.Keys == g.rules.Keys && a in g.rules
    ensures F.Keys == g.rules.Keys && Below(F0, F) && (changed <==> F != F0)
    ensures !changed ==> RuleClosed(g, first, F0, a, |g.rules[a]|)
    ensures forall H :: Bound(g, first, H) && Below(F0, H) ==> Below(F, H)
    ensures Bounded(F0, Universe(g, first)) ==> Bounded(F, Universe(g, first))
  {
    F, changed := F0, false;
    var j := 0;
    while j < |g.rules[a]|
      invariant 0 <= j <= |g.rules[a]| && F.Keys == g.rules.Keys && Below(F0, F) && (changed <==> F != F0)
      invariant !changed ==> RuleClosed(g, first, F0, a, j)
      invariant forall H :: Bound(g, first, H) && Below(F0, H) ==> Below(F, H)
      invariant Bounded(F0, Universe(g, first)) ==> Bounded(F, Universe(g, first))
    {
      var F', c := FollowProduction(g, first, a, j, F);
      if changed {
        StillChanged(F0, F, F');
      }
      F, changed := F', changed || c;
      j := j + 1;
    }
  }

  /** A pass over every nonterminal covers the whole grammar. */
  lemma PassClosedAll(g: Grammar, first: Table, F: Table)
    requires WellFormed(g) && g.rules.Keys <= first.Keys && F.Keys == g.rules.Keys
    requires PassClosed(g, first, F, |g.order|)
    ensures Closed(g, first, F)
  {
    forall a | a in g.rules ensures RuleClosed(g, first, F, a, |g.rules[a]|) {
      var k :| 0 <= k < |g.order| && g.order[k] == a;
    }
  }

  /** One pass of the `while changed` loop: every nonterminal in dictionary order. */
  method FollowPass(g: Grammar, first: Table, F0: Table) returns (F: Table, changed: bool)
    requires WellFormed(g) && g.rules.Keys <= first.Keys && F0.Keys == g.rules.Keys
    ensures F.Keys == g.rules.Keys && Below(F0, F) && (changed <==> F != F0)
    ensures !changed ==> Closed(g, first, F0)
    ensures forall H :: Bound(g, first, H) && Below(F0, H) ==> Below(F, H)
    ensures Bounded(F0, Universe(g, first)) ==> Bounded(F, Universe(g, first))
  {
    F, changed := F0, false;
    var k := 0;
    while k < |g.order|
      invariant 0 <= k <= |g.order| && F.Keys == g.rules.Keys && Below(F0, F) && (changed <==> F != F0)
      invariant !changed ==> PassClosed(g, first, F0, k)
      invariant forall H :: Bound(g, first, H) && Below(F0, H) ==> Below(F, H)
      invariant Bounded(F0, Universe(g, first)) ==> Bounded(F, Universe(g, first))
    {
      var a := g.order[k];
      assert a in g.rules;
      var F', c := FollowRule(g, first, a, F);
      if changed {
        StillChanged(F0, F, F');
      }
      F, changed := F', changed || c;
      k := k + 1;
    }
    if !changed {
      PassClosedAll(g, first, F0);
    }
  }

  /** The table the fixpoint starts from, `$` after the start symbol and nothing
      else, is below every FOLLOW table for the start symbol. */
  lemma StartBelow(g: Grammar, first: Table, start: Symbol, F: Table)
    requires g.rules.Keys <= first.Keys && F.Keys == g.rules.Keys && start in F && F[start] == {END}
    requires forall x :: x in F && x != start ==> F[x] == {}
    ensures Bounded(F, Universe(g, first))
    ensures forall H :: IsFollow(g, first, start, H) ==> Below(F, H)
  {
  }

  /** `compute_follow_set(cfg, start_symbol, first_set)`. A start symbol that is not
      a nonterminal is a `KeyError`. Otherwise the result is the least FOLLOW table
      for the start symbol: it is closed, `$` follows the start symbol, and it is
      contained, entry by entry, in every other such table. */
  method ComputeFollowSet(g: Grammar, start: Symbol, first: Table) returns (r: Result<Table>)
    requires WellFormed(g) && g.rules.Keys <= first.Keys
    ensures r.Ok? <==> start in g.rules
    ensures r.Err? ==> r.exc.kind == KeyError
    ensures r.Ok? ==> IsFollow(g, first, start, r.value)
    ensures r.Ok? ==> forall H :: IsFollow(g, first, start, H) ==> Below(r.value, H)
  {
    if start !in g.rules {
      return Fail(KeyError, start);
    }
    ghost var u := Universe(g, first);
    var F: Table := map a | a in g.rules :: {};
    F := F[start := F[start] + {END}];
    StartBelow(g, first, start, F);
    var changed := true;
    while changed
      invariant F.Keys == g.rules.Keys && END in F[start] && Bounded(F, u)
      invariant forall H :: IsFollow(g, first, start, H) ==> Below(F, H)
      invariant !changed ==> Closed(g, first, F)
      decreases |AllPairs(g, u) - Pairs(F)|, changed
    {
      var F', c := FollowPass(g, first, F);
      assert forall H :: IsFollow(g, first, start, H) ==> Bound(g, first, H);
      if c {
        PairsGrow(g, u, F, F');
      }
      F, changed := F', c;
    }
    return Ok(F);
  }

  // ---- PREDICT: `compute_predict_set` -------------------------------------------

  /** What the symbols of `p` from `k` contribute, read off a FIRST table: a key of
      the table adds its entry without λ and stops unless λ is in it, any other
      symbol adds itself and stops, and the end of `p` adds λ. */
  function FirstAlpha(first: Table, p: Production, k: nat): set<Symbol>
    requires k <= |p|
    decreases |p| - k
  {
    if k == |p| then {LAMBDA}
    else if p[k] in first then
      (first[p[k]] - {LAMBDA}) + (if LAMBDA in first[p[k]] then FirstAlpha(first, p, k + 1) else {})
    else {p[k]}
  }

  /** The predict set of `a -> p`: FIRST of `p` without λ, and FOLLOW of `a` when
      `p` can derive λ. */
  function Predict(first: Table, follow: Table, a: Symbol, p: Production): set<Symbol>
    requires a in follow
  {
    var fa := FirstAlpha(first, p, 0);
    (fa - {LAMBDA}) + (if LAMBDA in fa then follow[a] else {})
  }

  /** The loop of `compute_predict_set` that builds `first_alpha`, with its
      `for ... else`. */
  method FirstOfAlpha(first: Table, p: Production) returns (fa: set<Symbol>)
    ensures fa == FirstAlpha(first, p, 0)
  {
    fa := {};
    var k := 0;
    while k < |p|
      invariant 0 <= k <= |p|
      invariant FirstAlpha(first, p, 0) == fa + FirstAlpha(first, p, k)
    {
      var symbol := p[k];
      if symbol in first {
        fa := fa + (first[symbol] - {LAMBDA});
        if LAMBDA !in first[symbol] {
          return;
        }
      } else {
        fa := fa + {symbol};
        return;
      }
      k := k + 1;
    }
    fa := fa + {LAMBDA};
  }

  /** Read off a table of true FIRST sets, `FirstAlpha` is the FIRST set of the
      symbol string `p[k..]`, in the sense of `FirstFrom`. */
  lemma {:induction false} FirstAlphaIsFirstFrom(g: Grammar, first: Table, p: Production, k: nat)
    requires k <= |p| && first.Keys == g.rules.Keys
    requires forall a :: a in g.rules ==> IsFirst(g, a, first[a])
    ensures exists n :: FirstFrom(g, p, k, n) == Ok(FirstAlpha(first, p, k))
    decreases |p| - k
  {
    if k == |p| || p[k] !in g.rules {
      assert FirstFrom(g, p, k, 0) == Ok(FirstAlpha(first, p, k));
    } else {
      var n1 :| FirstSym(g, p[k], n1) == Ok(first[p[k]]);
      if LAMBDA !in first[p[k]] {
        assert FirstFrom(g, p, k, n1) == Ok(first[p[k]]);
        assert FirstAlpha(first, p, k) == first[p[k]] - {LAMBDA} == first[p[k]];
      } else {
        FirstAlphaIsFirstFrom(g, first, p, k + 1);
        var n2 :| FirstFrom(g, p, k + 1, n2) == Ok(FirstAlpha(first, p, k + 1));
        var n := if n1 < n2 then n2 else n1;
        FirstSymMono(g, p[k], n1, n);
        FirstFromMono(g, p, k + 1, n2, n);
        assert FirstFrom(g, p, k, n) == Ok(FirstAlpha(first, p, k));
      }
    }
  }

  /** A key of the predict dictionary: a nonterminal and one of its productions. */
  type Key = (Symbol, Production)

  /** The predict dictionary: `keys` in insertion order, `sets` its contents. */
  datatype PredictTable = PredictTable(keys: seq<Key>, sets: map<Key, set<Symbol>>)

  /** `s` without its repeated elements, each kept at its first position, as the
      keys of a dictionary are. */
  function Distinct(s: seq<Key>): seq<Key> {
    if s == [] then []
    else
      var init := Distinct(s[..|s| - 1]);
      if s[|s| - 1] in s[..|s| - 1] then init else init + [s[|s| - 1]]
  }

  /** Nothing is lost or added. */
  lemma {:induction false} DistinctMembers(s: seq<Key>)
    ensures forall x :: x in Distinct(s) <==> x in s
  {
    if s != [] {
      DistinctMembers(s[..|s| - 1]);
      assert s == s[..|s| - 1] + [s[|s| - 1]];
    }
  }

  /** No key is listed twice. */
  lemma {:induction false} DistinctHasNoRepeats(s: seq<Key>)
    ensures forall i, j :: 0 <= i < j < |Distinct(s)| ==> Distinct(s)[i] != Distinct(s)[j]
  {
    if s != [] {
      DistinctHasNoRepeats(s[..|s| - 1]);
      DistinctMembers(s[..|s| - 1]);
    }
  }

  /** The key of every production of `a`, in order. */
  function ProductionKeys(a: Symbol, ps: seq<Production>): seq<Key> {
    if ps == [] then [] else ProductionKeys(a, ps[..|ps| - 1]) + [(a, ps[|ps| - 1])]
  }

  lemma {:induction false} ProductionKeysMembers(a: Symbol, ps: seq<Production>, key: Key)
    ensures key in ProductionKeys(a, ps) <==> key.0 == a && key.1 in ps
  {
    if ps != [] {
      ProductionKeysMembers(a, ps[..|ps| - 1], key);
      assert ps == ps[..|ps| - 1] + [ps[|ps| - 1]];
    }
  }

  /** The keys `compute_predict_set` meets, duplicates included, for the first `k`
      nonterminals in dictionary order. */
  function KeysUpTo(g: Grammar, k: nat): seq<Key>
    requires WellFormed(g) && k <= |g.order|
  {
    if k == 0 then []
    else
      var a := g.order[k - 1];
      assert a in g.rules;
      KeysUpTo(g, k - 1) + ProductionKeys(a, g.rules[a])
  }

  /** The keys met are exactly the nonterminals with one of their productions. */
  lemma {:induction false} KeysUpToMembers(g: Grammar, k: nat, key: Key)
    requires WellFormed(g) && k <= |g.order|
    ensures key in KeysUpTo(g, k) <==> exists i :: 0 <= i < k && key.0 == g.order[i] && key.1 in g.rules[g.order[i]]
  {
    if k > 0 {
      KeysUpToMembers(g, k - 1, key);
      var a := g.order[k - 1];
      ProductionKeysMembers(a, g.rules[a], key);
    }
  }

  /** The dictionary lists exactly the keys it holds. */
  ghost predicate Listed(t: PredictTable) {
    forall key :: key in t.sets <==> key in t.keys
  }

  /** The predict dictionary holds the predict set of every key it lists. */
  ghost predicate PredictsAll(first: Table, follow: Table, t: PredictTable) {
    forall key :: key in t.sets ==> key.0 in follow && t.sets[key] == Predict(first, follow, key.0, key.1)
  }

  lemma DistinctStep(met: seq<Key>, key: Key)
    ensures Distinct(met + [key]) == Distinct(met) + (if key in met then [] else [key])
  {
    assert (met + [key])[..|met|] == met;
  }

  /** The keys met grow by the key of the next production. */
  lemma KeysGrow(met: seq<Key>, a: Symbol, ps: seq<Production>, j: nat)
    requires j < |ps|
    ensures met + ProductionKeys(a, ps[..j + 1]) == met + ProductionKeys(a, ps[..j]) + [(a, ps[j])]
  {
    assert ps[..j + 1][..j] == ps[..j];
    assert ProductionKeys(a, ps[..j + 1]) == ProductionKeys(a, ps[..j]) + [(a, ps[j])];
  }

  /** Storing one predict set: a new key is appended, an old one keeps its place. */
  lemma StoreStep(first: Table, follow: Table, t: PredictTable, key: Key, v: set<Symbol>)
    requires Listed(t) && PredictsAll(first, follow, t)
    requires key.0 in follow && v == Predict(first, follow, key.0, key.1)
    ensures var t' := PredictTable(if key in t.sets then t.keys else t.keys + [key], t.sets[key := v]);
      Listed(t') && PredictsAll(first, follow, t')
  {
  }

  /** One production of `a` handled by `compute_predict_set`. */
  lemma RuleStep(first: Table, follow: Table, met: seq<Key>, a: Symbol, ps: seq<Production>, j: nat, r: PredictTable, v: set<Symbol>)
    requires j < |ps| && a in follow && v == Predict(first, follow, a, ps[j])
    requires r.keys == Distinct(met + ProductionKeys(a, ps[..j])) && Listed(r) && PredictsAll(first, follow, r)
    ensures var key := (a, ps[j]);
      var r' := PredictTable(if key in r.sets then r.keys else r.keys + [key], r.sets[key := v]);
      r'.keys == Distinct(met + ProductionKeys(a, ps[..j + 1])) && Listed(r') && PredictsAll(first, follow, r')
  {
    var seen := met + ProductionKeys(a, ps[..j]);
    KeysGrow(met, a, ps, j);
    DistinctStep(seen, (a, ps[j]));
    DistinctMembers(seen);
    StoreStep(first, follow, r, (a, ps[j]), v);
  }

  /** The loop of `compute_predict_set` over the productions of `a`. */
  method PredictRule(first: Table, follow: Table, a: Symbol, ps: seq<Production>, r0: PredictTable, ghost met: seq<Key>)
    returns (r: PredictTable)
    requires a in follow && r0.keys == Distinct(met) && Listed(r0) && PredictsAll(first, follow, r0)
    ensures r.keys == Distinct(met + ProductionKeys(a, ps)) && Listed(r) && PredictsAll(first, follow, r)
  {
    r := r0;
    var j := 0;
    assert met + ProductionKeys(a, ps[..0]) == met;
    while j < |ps|
      invariant 0 <= j <= |ps|
      invariant r.keys == Distinct(met + ProductionKeys(a, ps[..j])) && Listed(r) && PredictsAll(first, follow, r)
    {
      var key := (a, ps[j]);
      var fa := FirstOfAlpha(first, ps[j]);
      var predict := fa - {LAMBDA};
      if LAMBDA in fa {
        predict := predict + follow[a];
      }
      RuleStep(first, follow, met, a, ps, j, r, predict);
      if key !in r.sets {
        r := r.(keys := r.keys + [key]);
      }
      r := r.(sets := r.sets[key := predict]);
      j := j + 1;
    }
    assert ps[..j] == ps;
  }

  /** `compute_predict_set(cfg, first_set, follow_set)`: a predict set for every
      production, the keys in the order the productions are met and a repeated
      production kept at its first position. */
  method ComputePredictSet(g: Grammar, first: Table, follow: Table) returns (r: PredictTable)
    requires WellFormed(g) && g.rules.Keys <= follow.Keys
    ensures r.keys == Distinct(KeysUpTo(g, |g.order|))
    ensures Listed(r) && PredictsAll(first, follow, r)
  {
    r := PredictTable([], map[]);
    var k := 0;
    while k < |g.order|
      invariant 0 <= k <= |g.order|
      invariant r.keys == Distinct(KeysUpTo(g, k)) && Listed(r) && PredictsAll(first, follow, r)
    {
      var a := g.order[k];
      assert a in g.rules;
      r := PredictRule(first, follow, a, g.rules[a], r, KeysUpTo(g, k));
      assert KeysUpTo(g, k + 1) == KeysUpTo(g, k) + ProductionKeys(a, g.rules[a]);
      k := k + 1;
    }
  }

  // ---- the parse table: `gen_parse_table` ---------------------------------------

  type ParseTable = map<Symbol, map<Symbol, Production>>

  /** The production stored for `nt` and `t` after the first `n` keys: the last of
      those keys for `nt` whose predict set holds `t`. */
  function Chosen(pt: PredictTable, n: nat, nt: Symbol, t: Symbol): Option<Production>
    requires n <= |pt.keys| && Listed(pt)
  {
    if n == 0 then None
    else
      var key := pt.keys[n - 1];
      if key.0 == nt && t in pt.sets[key] then Some(key.1) else Chosen(pt, n - 1, nt, t)
  }

  /** The nonterminals of a list of keys. */
  function HeadsOf(keys: seq<Key>): set<Symbol> {
    set k | k in keys :: k.0
  }

  /** What the parse table holds for `nt` and `t`. */
  function Entry(table: ParseTable, nt: Symbol, t: Symbol): Option<Production>
    requires nt in table
  {
    if t in table[nt] then Some(table[nt][t]) else None
  }

  /** The loop over one predict set: every terminal in it now maps to `production`. */
  method AddRow(row: map<Symbol, Production>, predict: set<Symbol>, production: Production) returns (r: map<Symbol, Production>)
    ensures forall t :: t in r <==> t in row || t in predict
    ensures forall t :: t in r ==> r[t] == if t in predict then production else row[t]
  {
    r := row;
    var rest := predict;
    while rest != {}
      invariant rest <= predict
      invariant forall t :: t in r <==> t in row || t in predict - rest
      invariant forall t :: t in r ==> r[t] == if t in predict - rest then production else row[t]
      decreases |rest|
    {
      var t :| t in rest;
      r := r[t := production];
      rest := rest - {t};
    }
  }

  /** `gen_parse_table()`: over the predict dictionary in order, every terminal of
      a predict set maps to its production, a later key overwriting an earlier
      one. Every nonterminal with a key gets a row, possibly empty. */
  method GenParseTable(pt: PredictTable) returns (table: ParseTable)
    requires Listed(pt)
    ensures table.Keys == HeadsOf(pt.keys)
    ensures forall nt, t :: nt in table ==> Entry(table, nt, t) == Chosen(pt, |pt.keys|, nt, t)
  {
    table := map[];
    var i := 0;
    while i < |pt.keys|
      invariant 0 <= i <= |pt.keys|
      invariant table.Keys == HeadsOf(pt.keys[..i])
      invariant forall nt, t :: nt in table ==> Entry(table, nt, t) == Chosen(pt, i, nt, t)
    {
      var key := pt.keys[i];
      var nonTerminal, production := key.0, key.1;
      ghost var before := table;
      if nonTerminal !in table {
        table := table[nonTerminal := map[]];
      }
      var row := AddRow(table[nonTerminal], pt.sets[key], production);
      table := table[nonTerminal := row];
      assert pt.keys[..i + 1] == pt.keys[..i] + [key];
      forall nt, t | nt in table ensures Entry(table, nt, t) == Chosen(pt, i + 1, nt, t) {
        if nt != nonTerminal {
          assert Entry(table, nt, t) == Entry(before, nt, t);
        } else if nt !in before {
          ChosenHead(pt, i, nt, t);
          forall k | 0 <= k < i ensures pt.keys[k].0 != nt {
            assert pt.keys[k] in pt.keys[..i];
          }
        }
      }
      i := i + 1;
    }
    assert pt.keys[..i] == pt.keys;
  }

  /** A chosen production comes from a key of `nt` whose predict set holds `t`, and
      a production is chosen whenever such a key exists. */
  lemma {:induction false} ChosenHead(pt: PredictTable, n: nat, nt: Symbol, t: Symbol)
    requires n <= |pt.keys| && Listed(pt)
    ensures Chosen(pt, n, nt, t).Some? <==> exists i :: 0 <= i < n && pt.keys[i].0 == nt && t in pt.sets[pt.keys[i]]
    ensures Chosen(pt, n, nt, t).Some? ==>
      (nt, Chosen(pt, n, nt, t).value) in pt.sets && t in pt.sets[(nt, Chosen(pt, n, nt, t).value)]
  {
    if n > 0 {
      ChosenHead(pt, n - 1, nt, t);
    }
  }

  /** What `compute_predict_set` promises about its result. */
  ghost predicate IsPredictTable(g: Grammar, first: Table, follow: Table, pt: PredictTable)
    requires WellFormed(g)
  {
    pt.keys == Distinct(KeysUpTo(g, |g.order|)) && Listed(pt) && PredictsAll(first, follow, pt)
  }

  /** What `gen_parse_table` promises about its result. */
  ghost predicate IsParseTable(pt: PredictTable, table: ParseTable)
    requires Listed(pt)
  {
    table.Keys == HeadsOf(pt.keys) && forall nt, t :: nt in table ==> Entry(table, nt, t) == Chosen(pt, |pt.keys|, nt, t)
  }

  /** The keys of the predict dictionary are the nonterminals with their productions. */
  lemma PredictKeys(g: Grammar, first: Table, follow: Table, pt: PredictTable, key: Key)
    requires WellFormed(g) && IsPredictTable(g, first, follow, pt)
    ensures key in pt.sets <==> key.0 in g.rules && key.1 in g.rules[key.0]
  {
    DistinctMembers(KeysUpTo(g, |g.order|));
    KeysUpToMembers(g, |g.order|, key);
    if key.0 in g.rules && key.1 in g.rules[key.0] {
      var i :| 0 <= i < |g.order| && g.order[i] == key.0;
    }
  }

  /** Every entry of the parse table is a production of its nonterminal whose
      predict set holds the terminal. */
  lemma ParseTableSound(g: Grammar, first: Table, follow: Table, pt: PredictTable, table: ParseTable, nt: Symbol, t: Symbol)
    requires WellFormed(g) && IsPredictTable(g, first, follow, pt) && IsParseTable(pt, table)
    requires nt in table && t in table[nt]
    ensures nt in g.rules && table[nt][t] in g.rules[nt] && nt in follow
    ensures t in Predict(first, follow, nt, table[nt][t])
  {
    assert Entry(table, nt, t) == Chosen(pt, |pt.keys|, nt, t);
    ChosenHead(pt, |pt.keys|, nt, t);
    PredictKeys(g, first, follow, pt, (nt, table[nt][t]));
  }

  /** Whenever a production of `nt` predicts `t`, the parse table has an entry for
      `nt` and `t`. */
  lemma ParseTableComplete(g: Grammar, first: Table, follow: Table, pt: PredictTable, table: ParseTable, nt: Symbol, p: Production, t: Symbol)
    requires WellFormed(g) && IsPredictTable(g, first, follow, pt) && IsParseTable(pt, table)
    requires nt in g.rules && p in g.rules[nt] && nt in follow && t in Predict(first, follow, nt, p)
    ensures nt in table && t in table[nt]
  {
    PredictKeys(g, first, follow, pt, (nt, p));
    var i :| 0 <= i < |pt.keys| && pt.keys[i] == (nt, p);
    assert nt in HeadsOf(pt.keys);
    ChosenHead(pt, |pt.keys|, nt, t);
    assert Entry(table, nt, t) == Chosen(pt, |pt.keys|, nt, t);
  }

  // ---- `check_ambiguity` --------------------------------------------------------

  type Ambiguity = (Symbol, Production, Production)

  /** Every production of every nonterminal has a predict set. */
  ghost predicate Covers(g: Grammar, pt: PredictTable) {
    forall a, p :: a in g.rules && p in g.rules[a] ==> (a, p) in pt.sets
  }

  /** `prediction_sets` for `a`: the predict set of each production, in order. */
  function PredictionSets(pt: PredictTable, a: Symbol, ps: seq<Production>): (ss: seq<set<Symbol>>)
    requires forall p :: p in ps ==> (a, p) in pt.sets
    ensures |ss| == |ps| && forall i :: 0 <= i < |ps| ==> ss[i] == pt.sets[(a, ps[i])]
  {
    if ps == [] then []
    else PredictionSets(pt, a, ps[..|ps| - 1]) + [pt.sets[(a, ps[|ps| - 1])]]
  }

  /** The pairs `(i, j')` with `i < j' < j` whose predict sets overlap. */
  function RowPairs(a: Symbol, ps: seq<Production>, ss: seq<set<Symbol>>, i: nat, j: nat): seq<Ambiguity>
    requires |ss| == |ps| && i < |ps| && j <= |ps|
  {
    if j <= i + 1 then []
    else RowPairs(a, ps, ss, i, j - 1) + (if ss[i] * ss[j - 1] != {} then [(a, ps[i], ps[j - 1])] else [])
  }

  /** The overlapping pairs whose first index is below `i`. */
  function RulePairs(a: Symbol, ps: seq<Production>, ss: seq<set<Symbol>>, i: nat): seq<Ambiguity>
    requires |ss| == |ps| && i <= |ps|
  {
    if i == 0 then [] else RulePairs(a, ps, ss, i - 1) + RowPairs(a, ps, ss, i - 1, |ps|)
  }

  /** The report for the first `k` nonterminals in dictionary order. */
  function AmbiguitiesUpTo(g: Grammar, pt: PredictTable, k: nat): seq<Ambiguity>
    requires WellFormed(g) && Covers(g, pt) && k <= |g.order|
  {
    if k == 0 then []
    else
      var a := g.order[k - 1];
      assert a in g.rules;
      var ps := g.rules[a];
      AmbiguitiesUpTo(g, pt, k - 1) + RulePairs(a, ps, PredictionSets(pt, a, ps), |ps|)
  }

  /** One pair `(i, j)` examined. */
  lemma RowStep(base: seq<Ambiguity>, a: Symbol, ps: seq<Production>, ss: seq<set<Symbol>>, i: nat, j: nat, amb: seq<Ambiguity>)
    requires |ss| == |ps| && i < j < |ps| && amb == base + RowPairs(a, ps, ss, i, j)
    ensures (if ss[i] * ss[j] != {} then amb + [(a, ps[i], ps[j])] else amb) == base + RowPairs(a, ps, ss, i, j + 1)
  {
  }

  /** Row `i` finished. */
  lemma RuleStep2(amb0: seq<Ambiguity>, a: Symbol, ps: seq<Production>, ss: seq<set<Symbol>>, i: nat, amb: seq<Ambiguity>)
    requires |ss| == |ps| && i < |ps| && amb == amb0 + RulePairs(a, ps, ss, i) + RowPairs(a, ps, ss, i, |ps|)
    ensures amb == amb0 + RulePairs(a, ps, ss, i + 1)
  {
  }

  /** The inner loop of `check_ambiguity`: production `i` against every later one. */
  method CheckRow(a: Symbol, ps: seq<Production>, ss: seq<set<Symbol>>, i: nat, amb0: seq<Ambiguity>) returns (amb: seq<Ambiguity>)
    requires |ss| == |ps| && i < |ps|
    ensures amb == amb0 + RowPairs(a, ps, ss, i, |ps|)
  {
    amb := amb0;
    var j := i + 1;
    while j < |ss|
      invariant i + 1 <= j <= |ss| && amb == amb0 + RowPairs(a, ps, ss, i, j)
    {
      RowStep(amb0, a, ps, ss, i, j, amb);
      if ss[i] * ss[j] != {} {
        amb := amb + [(a, ps[i], ps[j])];
      }
      j := j + 1;
    }
  }

  /** The loops of `check_ambiguity` over the productions of one nonterminal. */
  method CheckRule(a: Symbol, ps: seq<Production>, ss: seq<set<Symbol>>, amb0: seq<Ambiguity>) returns (amb: seq<Ambiguity>)
    requires |ss| == |ps|
    ensures amb == amb0 + RulePairs(a, ps, ss, |ps|)
  {
    amb := amb0;
    var i := 0;
    while i < |ss|
      invariant 0 <= i <= |ss| && amb == amb0 + RulePairs(a, ps, ss, i)
    {
      amb := CheckRow(a, ps, ss, i, amb);
      RuleStep2(amb0, a, ps, ss, i, amb);
      i := i + 1;
    }
  }

  /** `check_ambiguity(cfg, predict_set)`: the overlapping pairs of productions of
      each nonterminal, in dictionary order and then by index. The report it prints
      is left out. */
  method CheckAmbiguity(g: Grammar, pt: PredictTable) returns (amb: seq<Ambiguity>)
    requires WellFormed(g) && Covers(g, pt)
    ensures amb == AmbiguitiesUpTo(g, pt, |g.order|)
  {
    amb := [];
    var k := 0;
    while k < |g.order|
      invariant 0 <= k <= |g.order| && amb == AmbiguitiesUpTo(g, pt, k)
    {
      var a := g.order[k];
      assert a in g.rules;
      var ps := g.rules[a];
      var ss := PredictionSets(pt, a, ps);
      amb := CheckRule(a, ps, ss, amb);
      k := k + 1;
    }
  }

  /** Two productions of `x.0`, at indices `i < j`, are `x.1` and `x.2`, and their
      predict sets overlap. */
  ghost predicate Overlapping(g: Grammar, pt: PredictTable, x: Ambiguity)
    requires Covers(g, pt)
  {
    x.0 in g.rules &&
    exists i, j :: 0 <= i < j < |g.rules[x.0]| && x.1 == g.rules[x.0][i] && x.2 == g.rules[x.0][j] &&
      pt.sets[(x.0, g.rules[x.0][i])] * pt.sets[(x.0, g.rules[x.0][j])] != {}
  }

  lemma {:induction false} RowPairsMembers(a: Symbol, ps: seq<Production>, ss: seq<set<Symbol>>, i: nat, j: nat, x: Ambiguity)
    requires |ss| == |ps| && i < |ps| && j <= |ps|
    ensures x in RowPairs(a, ps, ss, i, j) <==> exists k :: i < k < j && x == (a, ps[i], ps[k]) && ss[i] * ss[k] != {}
    decreases j
  {
    if j > i + 1 {
      RowPairsMembers(a, ps, ss, i, j - 1, x);
    }
  }

  lemma {:induction false} RulePairsMembers(a: Symbol, ps: seq<Production>, ss: seq<set<Symbol>>, i: nat, x: Ambiguity)
    requires |ss| == |ps| && i <= |ps|
    ensures x in RulePairs(a, ps, ss, i) <==>
      exists h, k :: 0 <= h < i && h < k < |ps| && x == (a, ps[h], ps[k]) && ss[h] * ss[k] != {}
  {
    if x in RulePairs(a, ps, ss, i) {
      var h, k := RulePairsSound(a, ps, ss, i, x);
    }
    if exists h, k :: 0 <= h < i && h < k < |ps| && x == (a, ps[h], ps[k]) && ss[h] * ss[k] != {} {
      var h, k :| 0 <= h < i && h < k < |ps| && x == (a, ps[h], ps[k]) && ss[h] * ss[k] != {};
      RulePairsComplete(a, ps, ss, i, x, h, k);
    }
  }

  lemma {:induction false} RulePairsSound(a: Symbol, ps: seq<Production>, ss: seq<set<Symbol>>, i: nat, x: Ambiguity) returns (h: nat, k: nat)
    requires |ss| == |ps| && i <= |ps| && x in RulePairs(a, ps, ss, i)
    ensures h < i && h < k < |ps| && x == (a, ps[h], ps[k]) && ss[h] * ss[k] != {}
  {
    var before, row := RulePairs(a, ps, ss, i - 1), RowPairs(a, ps, ss, i - 1, |ps|);
    assert RulePairs(a, ps, ss, i) == before + row;
    if x in before {
      h, k := RulePairsSound(a, ps, ss, i - 1, x);
    } else {
      h := i - 1;
      k := RowPairsSound(a, ps, ss, h, |ps|, x);
    }
  }

  lemma {:induction false} RowPairsSound(a: Symbol, ps: seq<Production>, ss: seq<set<Symbol>>, i: nat, j: nat, x: Ambiguity) returns (k: nat)
    requires |ss| == |ps| && i < |ps| && j <= |ps| && x in RowPairs(a, ps, ss, i, j)
    ensures i < k < j && x == (a, ps[i], ps[k]) && ss[i] * ss[k] != {}
    decreases j
  {
    var before := RowPairs(a, ps, ss, i, j - 1);
    assert RowPairs(a, ps, ss, i, j) == before + (if ss[i] * ss[j - 1] != {} then [(a, ps[i], ps[j - 1])] else []);
    if x in before {
      k := RowPairsSound(a, ps, ss, i, j - 1, x);
    } else {
      k := j - 1;
    }
  }

  lemma {:induction false} RulePairsComplete(a: Symbol, ps: seq<Production>, ss: seq<set<Symbol>>, i: nat, x: Ambiguity, h: nat, k: nat)
    requires |ss| == |ps| && i <= |ps|
    requires h < i && h < k < |ps| && x == (a, ps[h], ps[k]) && ss[h] * ss[k] != {}
    ensures x in RulePairs(a, ps, ss, i)
  {
    var before, row := RulePairs(a, ps, ss, i - 1), RowPairs(a, ps, ss, i - 1, |ps|);
    assert RulePairs(a, ps, ss, i) == before + row;
    if h < i - 1 {
      RulePairsComplete(a, ps, ss, i - 1, x, h, k);
      assert x in before;
    } else {
      RowPairsMembers(a, ps, ss, h, |ps|, x);
      assert h < k < |ps| && x == (a, ps[h], ps[k]) && ss[h] * ss[k] != {};
      assert x in row;
    }
    assert x in before + row;
  }

  lemma {:induction false} AmbiguitiesUpToMembers(g: Grammar, pt: PredictTable, k: nat, x: Ambiguity)
    requires WellFormed(g) && Covers(g, pt) && k <= |g.order|
    ensures x in AmbiguitiesUpTo(g, pt, k) <==> (exists m :: 0 <= m < k && g.order[m] == x.0) && Overlapping(g, pt, x)
  {
    if k > 0 {
      AmbiguitiesUpToMembers(g, pt, k - 1, x);
      var a := g.order[k - 1];
      var ps := g.rules[a];
      RulePairsMembers(a, ps, PredictionSets(pt, a, ps), |ps|, x);
    }
  }

  /** The report lists exactly the overlapping pairs of productions. */
  lemma AmbiguityMembers(g: Grammar, pt: PredictTable, x: Ambiguity)
    requires WellFormed(g) && Covers(g, pt)
    ensures x in AmbiguitiesUpTo(g, pt, |g.order|) <==> Overlapping(g, pt, x)
  {
    AmbiguitiesUpToMembers(g, pt, |g.order|, x);
    if x.0 in g.rules {
      var m :| 0 <= m < |g.order| && g.order[m] == x.0;
    }
  }

  /** The predict dictionary has a set for every production. */
  lemma PredictCovers(g: Grammar, first: Table, follow: Table, pt: PredictTable)
    requires WellFormed(g) && IsPredictTable(g, first, follow, pt)
    ensures Covers(g, pt)
  {
    forall a, p | a in g.rules && p in g.rules[a] ensures (a, p) in pt.sets {
      PredictKeys(g, first, follow, pt, (a, p));
    }
  }

  /** When `check_ambiguity` reports nothing the grammar is LL(1) in the usual sense:
      the parse table entry for `nt` and `t` is the one production of `nt` whose
      predict set holds `t`. */
  lemma UnambiguousTable(g: Grammar, first: Table, follow: Table, pt: PredictTable, table: ParseTable, nt: Symbol, p: Production, t: Symbol)
    requires WellFormed(g) && IsPredictTable(g, first, follow, pt) && IsParseTable(pt, table) && Covers(g, pt)
    requires AmbiguitiesUpTo(g, pt, |g.order|) == []
    requires nt in g.rules && p in g.rules[nt] && nt in follow && t in Predict(first, follow, nt, p)
    ensures nt in table && t in table[nt] && table[nt][t] == p
  {
    ParseTableComplete(g, first, follow, pt, table, nt, p, t);
    var q := table[nt][t];
    ParseTableSound(g, first, follow, pt, table, nt, t);
    PredictKeys(g, first, follow, pt, (nt, p));
    PredictKeys(g, first, follow, pt, (nt, q));
    assert t in pt.sets[(nt, p)] && t in pt.sets[(nt, q)];
    if q != p {
      var ps := g.rules[nt];
      var i :| 0 <= i < |ps| && ps[i] == p;
      var j :| 0 <= j < |ps| && ps[j] == q;
      var h, k := if i < j then i else j, if i < j then j else i;
      assert t in pt.sets[(nt, ps[h])] * pt.sets[(nt, ps[k])];
      AmbiguityMembers(g, pt, (nt, ps[h], ps[k]));
      assert false;
    }
  }
}
