/** The cache of compiled permissions, keyed by hash. */
module PermissionCache {
  import opened Wrappers
  import opened Json
  import opened CompiledRules
  import opened InputGuards
  import opened Authorize
  import opened Readings
  import opened CanonicalRules

  datatype Compiled = Compiled(rulesHash: Hash, rules: seq<Rule>)

  type Cache = map<Hash, Compiled>

  function Compile(le: Order, rules: seq<Rule>): Compiled {
    Compiled(RulesHash(le, rules), rules)
  }

  // The hash a call looks up: the one passed in, or that of the rules when none is.
  function Desired(le: Order, rules: seq<Rule>, existing: Option<Hash>): Hash {
    if existing.Some? && existing.value != Label("") then existing.value else RulesHash(le, rules)
  }

  function Lookup(c: Cache, le: Order, rules: seq<Rule>, existing: Option<Hash>): Compiled {
    var h := Desired(le, rules, existing);
    if h in c then c[h] else Compile(le, rules)
  }

  function AfterLookup(c: Cache, le: Order, rules: seq<Rule>, existing: Option<Hash>): Cache {
    var h := Desired(le, rules, existing);
    if h in c then c else c[RulesHash(le, rules) := Compile(le, rules)][h := Compile(le, rules)]
  }

  function AfterInvalidate(c: Cache, h: Hash): Cache {
    map k | k in c && k != h && c[k].rulesHash != h :: c[k]
  }

  class CompiledCache {
    var entries: map<Hash, Compiled>

    constructor ()
      ensures entries == map[]
    {
      entries := map[];
    }

    method GetOrCompile(le: Order, rules: seq<Rule>, existing: Option<Hash>) returns (compiled: Compiled)
      modifies this
      ensures compiled == Lookup(old(entries), le, rules, existing)
      ensures entries == AfterLookup(old(entries), le, rules, existing)
    {
      var desired := Desired(le, rules, existing);
      if desired in entries {
        return entries[desired];
      }
      compiled := Compile(le, rules);
      entries := entries[compiled.rulesHash := compiled];
      if compiled.rulesHash != desired {
        entries := entries[desired := compiled];
      }
    }

    method Invalidate(h: Hash)
      modifies this
      ensures entries == AfterInvalidate(old(entries), h)
    {
      var keys := entries.Keys;
      var before := entries;
      while keys != {}
        invariant keys <= before.Keys
        invariant entries == map k | k in before && (k in keys || (k != h && before[k].rulesHash != h)) :: before[k]
        decreases keys
      {
        var k :| k in keys;
        if k == h || before[k].rulesHash == h {
          entries := entries - {k};
        }
        keys := keys - {k};
      }
    }

    method Clear()
      modifies this
      ensures entries == map[]
    {
      entries := map[];
    }
  }

  // ---------------------------------------------------------------- runs

  datatype Event = Get(rules: seq<Rule>, existing: Option<Hash>) | Invalidate(h: Hash) | Clear

  function Step(c: Cache, le: Order, e: Event): Cache {
    match e
    case Get(rules, existing) => AfterLookup(c, le, rules, existing)
    case Invalidate(h) => AfterInvalidate(c, h)
    case Clear => map[]
  }

  function Run(c: Cache, le: Order, es: seq<Event>): Cache
    decreases |es|
  {
    if es == [] then c else Step(Run(c, le, es[..|es| - 1]), le, es[|es| - 1])
  }

  // The hashes a call pairs with its rules: the one it looks up and the one it may store under.
  predicate Pairs(le: Order, e: Event, h: Hash) {
    e.Get? && (h == Desired(le, e.rules, e.existing) || h == RulesHash(le, e.rules))
  }

  /**
   Since its last invalidation in the run, each hash has been paired with rules of one canonical form:
   any two calls that pair it agree unless it was invalidated between them.
   */
  ghost predicate PairedWithOneList(le: Order, es: seq<Event>) {
    forall i, j, h :: 0 <= i < j < |es| && Pairs(le, es[i], h) && Pairs(le, es[j], h) && !Dropped(es, i, j, h) ==>
      Canonical(le, es[i].rules) == Canonical(le, es[j].rules)
  }

  predicate Dropped(es: seq<Event>, i: int, j: int, h: Hash)
    requires 0 <= i <= j <= |es|
  {
    exists k :: i < k < j && (es[k].Clear? || es[k] == Invalidate(h))
  }

  // What is stored under h came from a call that paired h with those rules, and was not dropped since.
  ghost predicate Explained(le: Order, es: seq<Event>, h: Hash, v: Compiled) {
    exists i :: 0 <= i < |es| && Pairs(le, es[i], h) && !Dropped(es, i, |es|, h) && v == Compile(le, es[i].rules)
  }

  lemma {:induction false} StaysExplained(le: Order, es: seq<Event>, h: Hash, v: Compiled)
    requires es != [] && Explained(le, es[..|es| - 1], h, v)
    requires !es[|es| - 1].Clear? && es[|es| - 1] != Invalidate(h)
    ensures Explained(le, es, h, v)
  {
    var front := es[..|es| - 1];
    var i :| 0 <= i < |front| && Pairs(le, front[i], h) && !Dropped(front, i, |front|, h)
             && v == Compile(le, front[i].rules);
    assert Pairs(le, es[i], h);
    forall k | i < k < |es|
      ensures !(es[k].Clear? || es[k] == Invalidate(h))
    {
      if k < |front| {
        assert front[k] == es[k];
      }
    }
    assert !Dropped(es, i, |es|, h);
  }

  lemma {:induction false} RunIsExplained(le: Order, es: seq<Event>, h: Hash)
    requires h in Run(map[], le, es)
    ensures Explained(le, es, h, Run(map[], le, es)[h])
    decreases |es|
  {
    var n := |es| - 1;
    var front := es[..n];
    var c, e := Run(map[], le, front), es[n];
    if h in c && (e.Get? ==> Step(c, le, e)[h] == c[h]) {
      RunIsExplained(le, front, h);
      StaysExplained(le, es, h, c[h]);
    } else {
      assert Pairs(le, es[n], h) && !Dropped(es, n, |es|, h);
    }
  }

  /**
   In every reachable cache, a lookup whose hashes have each been paired with one list since their
   last invalidation returns rules with the canonical form, and so the decisions, of a fresh compile.
   */
  lemma {:induction false} CachedIsFresh(le: Order, es: seq<Event>, rules: seq<Rule>, existing: Option<Hash>)
    requires PairedWithOneList(le, es + [Get(rules, existing)])
    ensures var v := Lookup(Run(map[], le, es), le, rules, existing);
            Canonical(le, v.rules) == Canonical(le, rules) && v.rulesHash == RulesHash(le, rules)
  {
    var c := Run(map[], le, es);
    var h := Desired(le, rules, existing);
    if h in c {
      RunIsExplained(le, es, h);
      var i :| 0 <= i < |es| && Pairs(le, es[i], h) && !Dropped(es, i, |es|, h) && c[h] == Compile(le, es[i].rules);
      var fs := es + [Get(rules, existing)];
      forall k | i < k < |es|
        ensures !(fs[k].Clear? || fs[k] == Invalidate(h))
      {
        assert fs[k] == es[k];
      }
      assert Pairs(le, fs[i], h) && Pairs(le, fs[|es|], h) && !Dropped(fs, i, |es|, h);
    }
  }

  // All rules that calls have brought, so far and in the next call, inherit nothing of consequence.
  predicate OwnCalls(es: seq<Event>) {
    forall e :: e in es && e.Get? ==> OwnRules(e.rules)
  }

  lemma {:induction false} CachedRulesAreOwn(le: Order, es: seq<Event>, rules: seq<Rule>, existing: Option<Hash>)
    requires OwnCalls(es) && OwnRules(rules)
    ensures OwnRules(Lookup(Run(map[], le, es), le, rules, existing).rules)
  {
    var c, h := Run(map[], le, es), Desired(le, rules, existing);
    if h in c {
      RunIsExplained(le, es, h);
      var i :| 0 <= i < |es| && Pairs(le, es[i], h) && !Dropped(es, i, |es|, h) && c[h] == Compile(le, es[i].rules);
      assert es[i] in es;
    }
  }

  lemma {:induction false} AlikeChain(rs: seq<Rule>, qs: seq<Rule>, ps: seq<Rule>, req: Request, context: Context)
    requires AllAlike(rs, qs, req, context) && AllAlike(qs, ps, req, context)
    ensures AllAlike(rs, ps, req, context)
  {
    forall i | 0 <= i < |rs| ensures Alike(rs[i], ps[i], req, context) {
      assert Alike(rs[i], qs[i], req, context) && Alike(qs[i], ps[i], req, context);
    }
  }

  /**
   End to end, then: deciding with what such a lookup returns, through an index compiled from it, is
   deciding by a plain scan of the caller's own list, to the reason, the matched rule and the limiter.
   */
  lemma {:induction false} CachedDecisionIsLinearScan(
    le: Order, es: seq<Event>, rules: seq<Rule>, existing: Option<Hash>, compiled: Index,
    entry: Entry, req: Request, context: Context, state: Limiter)
    requires PairedWithOneList(le, es + [Get(rules, existing)]) && OwnCalls(es) && OwnRules(rules)
    requires entry.resource != "*" && !EmptyNameMoves(le, req.input)
    requires var v := Lookup(Run(map[], le, es), le, rules, existing);
             forall r, a :: Bucket(compiled, r, a) == Select(SanitizedRules(v.rules), r, a)
    ensures var v := Lookup(Run(map[], le, es), le, rules, existing);
            var gathered := GatherBuckets(compiled, entry.resource, entry.action);
            var scanned := ScanList(rules, entry.resource, entry.action);
            var (d, s) := Decide(gathered, req, context, v.rulesHash, state);
            var (e, t) := Decide(scanned, req, context, RulesHash(le, rules), state);
            See(d) == See(e) && s == t
  {
    CachedIsFresh(le, es, rules, existing);
    CachedRulesAreOwn(le, es, rules, existing);
    var v := Lookup(Run(map[], le, es), le, rules, existing);
    SanitizedRulesAreAlike(le, v.rules, req, context);
    EqualFormsAreAlike(le, v.rules, rules, req, context);
    AlikeChain(SanitizedRules(v.rules), v.rules, rules, req, context);
    AlikeSelectionsDecideAlike(SanitizedRules(v.rules), rules, entry, req, context, v.rulesHash, state);
    BucketsAreLinearScan(rules, entry, req, context, RulesHash(le, rules), state);
  }

  // What a fresh compile of the rules would decide by, under the hash it would have.
  predicate IsFresh(le: Order, v: Compiled, rules: seq<Rule>) {
    Canonical(le, v.rules) == Canonical(le, rules) && v.rulesHash == RulesHash(le, rules)
  }

  // A run whose lookups are all calls of d; it may invalidate and clear as it likes.
  ghost predicate CallsFrom(d: iset<Event>, es: seq<Event>) {
    forall e :: e in es && e.Get? ==> e in d
  }

  ghost predicate AlwaysFresh(le: Order, d: iset<Event>) {
    forall es, e :: CallsFrom(d, es) && e in d && e.Get? ==>
      IsFresh(le, Lookup(Run(map[], le, es), le, e.rules, e.existing), e.rules)
  }

  // Any two calls that pair one hash, to look it up or to store under it, have rules of one canonical form.
  ghost predicate OneFormPerHash(le: Order, d: iset<Event>) {
    forall a, b, h :: a in d && b in d && Pairs(le, a, h) && Pairs(le, b, h) ==>
      Canonical(le, a.rules) == Canonical(le, b.rules)
  }

  lemma {:induction false} OneFormIsFresh(le: Order, d: iset<Event>, es: seq<Event>, e: Event)
    requires OneFormPerHash(le, d) && CallsFrom(d, es) && e in d && e.Get?
    ensures IsFresh(le, Lookup(Run(map[], le, es), le, e.rules, e.existing), e.rules)
  {
    var c, h := Run(map[], le, es), Desired(le, e.rules, e.existing);
    if h in c {
      RunIsExplained(le, es, h);
      var i :| 0 <= i < |es| && Pairs(le, es[i], h) && !Dropped(es, i, |es|, h) && c[h] == Compile(le, es[i].rules);
      assert es[i] in d && Pairs(le, e, h);
    }
  }

  // After a alone, b is answered with a's rules if it looks up a hash that a paired.
  lemma {:induction false} FirstCallAnswers(le: Order, d: iset<Event>, a: Event, b: Event, h: Hash)
    requires AlwaysFresh(le, d) && a in d && b in d && Pairs(le, a, h)
    requires b.Get? && h == Desired(le, b.rules, b.existing)
    ensures Canonical(le, a.rules) == Canonical(le, b.rules)
  {
    assert [a][..0] == [] && Run(map[], le, []) == map[];
    assert Run(map[], le, [a]) == AfterLookup(map[], le, a.rules, a.existing);
    assert CallsFrom(d, [a]);
    assert Lookup(Run(map[], le, [a]), le, b.rules, b.existing) == Compile(le, a.rules);
  }

  /**
   For any set of calls: every lookup of one of them, after any run of them with any invalidations, is
   fresh, exactly when no two of them pair one hash with rules of different canonical forms.
   */
  lemma {:induction false} FreshExactly(le: Order, d: iset<Event>)
    ensures AlwaysFresh(le, d) <==> OneFormPerHash(le, d)
  {
    if OneFormPerHash(le, d) {
      forall es, e | CallsFrom(d, es) && e in d && e.Get?
        ensures IsFresh(le, Lookup(Run(map[], le, es), le, e.rules, e.existing), e.rules)
      {
        OneFormIsFresh(le, d, es, e);
      }
    }
    if AlwaysFresh(le, d) {
      forall a, b, h | a in d && b in d && Pairs(le, a, h) && Pairs(le, b, h)
        ensures Canonical(le, a.rules) == Canonical(le, b.rules)
      {
        if h == Desired(le, b.rules, b.existing) {
          FirstCallAnswers(le, d, a, b, h);
        } else if h == Desired(le, a.rules, a.existing) {
          FirstCallAnswers(le, d, b, a, h);
        }
      }
    }
  }

  // The keys under which compiled data v is cached.
  function Aliases(c: Cache, v: Compiled): set<Hash> {
    set k | k in c && c[k] == v
  }

  /**
   Invalidating h removes every alias of v exactly when h is v's own hash or v has no other key: the
   requested hash alone leaves the alias under the compiled one.
   */
  lemma {:induction false} InvalidateRemovesExactly(c: Cache, v: Compiled, h: Hash)
    ensures Aliases(AfterInvalidate(c, h), v) == {} <==> h == v.rulesHash || Aliases(c, v) <= {h}
    ensures h !in AfterInvalidate(c, h)
  {
    var d := AfterInvalidate(c, h);
    if h == v.rulesHash || Aliases(c, v) <= {h} {
      forall k
        ensures k !in Aliases(d, v)
      {
        assert k in Aliases(d, v) ==> k in Aliases(c, v);
      }
    } else {
      var k :| k in Aliases(c, v) && k != h;
      assert k in Aliases(d, v);
    }
  }

  /** After a lookup under a stale label, invalidating that label leaves the compiled data cached. */
  lemma {:induction false} RequestedHashLeavesAnAlias(le: Order, rules: seq<Rule>, text: string)
    requires text != ""
    ensures var c := AfterLookup(map[], le, rules, Some(Label(text)));
            var v := Compile(le, rules);
            && Aliases(c, v) == {Label(text), v.rulesHash}
            && Aliases(AfterInvalidate(c, Label(text)), v) == {v.rulesHash}
            && Aliases(AfterInvalidate(c, v.rulesHash), v) == {}
  {
  }

  /**
   A hash that is only ever passed in with one list may still answer for another: it can be the content
   hash under which an earlier call stored its rules.
   */
  lemma {:induction false} OneListPerPassedHashIsNotEnough(le: Order, rs: seq<Rule>, qs: seq<Rule>)
    requires Canonical(le, rs) != Canonical(le, qs)
    ensures var h := RulesHash(le, rs);
            var c := Run(map[], le, [Get(rs, None)]);
            Lookup(c, le, qs, Some(h)) == Compile(le, rs) && Compile(le, rs).rulesHash != RulesHash(le, qs)
  {
    assert [Get(rs, None)][..0] == [];
    assert Run(map[], le, []) == map[];
  }
}
