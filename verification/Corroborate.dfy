/** packages/query-engine/src/resolve.ts: the confidence of what several sources say. */
module Corroborate {
  import opened Graphs
  import opened Sequences

  /** Everything else an observation records. */
  type Detail(==, !new)

  datatype Provenance = Provenance(provider: Id, confidence: real, detail: Detail)

  const CAP := 0.99

  function Stronger(a: real, b: real): real {
    if b > a then b else a
  }

  /** The strongest thing a provider said, 0 if it said nothing. */
  function Best(sources: seq<Provenance>, provider: Id): (r: real)
    ensures r >= 0.0
  {
    if sources == [] then 0.0 else
      var rest := Best(sources[..|sources| - 1], provider);
      var last := sources[|sources| - 1];
      if last.provider == provider then Stronger(rest, last.confidence) else rest
  }

  /** The providers that said something positive, in order of the first time they did. */
  function Providers(sources: seq<Provenance>): (r: seq<Id>)
    ensures NoDup(r)
  {
    if sources == [] then [] else
      var rest := Providers(sources[..|sources| - 1]);
      var last := sources[|sources| - 1];
      if last.confidence > 0.0 && last.provider !in rest then rest + [last.provider] else rest
  }

  function Strongest(sources: seq<Provenance>): map<Id, real> {
    map p | p in Providers(sources) :: Best(sources, p)
  }

  /** One more independent observation leaves this much doubt. */
  function Discount(doubt: real, confidence: real): real {
    doubt * (1.0 - confidence)
  }

  function Doubt(sources: seq<Provenance>): real {
    Fold(Providers(sources), Strongest(sources), Discount, 1.0)
  }

  /** Number(v.toFixed(4)): to the nearest ten-thousandth, halves upwards. */
  function Round4(v: real): real {
    (v * 10000.0 + 0.5).Floor as real / 10000.0
  }

  function Min(a: real, b: real): real {
    if a < b then a else b
  }

  function Confidence(sources: seq<Provenance>): real {
    Min(CAP, Round4(1.0 - Doubt(sources)))
  }

  // ---------------------------------------------------------------- the loops

  lemma {:induction false} ProviderIsPositive(sources: seq<Provenance>, p: Id)
    ensures p in Providers(sources) <==> Best(sources, p) > 0.0
  {
    if sources != [] {
      ProviderIsPositive(sources[..|sources| - 1], p);
    }
  }

  lemma NextStrongest(sources: seq<Provenance>, i: nat, keys: seq<Id>, strongest: map<Id, real>)
    requires i < |sources| && keys == Providers(sources[..i]) && strongest == Strongest(sources[..i])
    ensures var s := sources[i]; var known := if s.provider in strongest then strongest[s.provider] else 0.0;
            if s.confidence > known then
              Providers(sources[..i + 1]) == (if s.provider in strongest then keys else keys + [s.provider])
              && Strongest(sources[..i + 1]) == strongest[s.provider := s.confidence]
            else Providers(sources[..i + 1]) == keys && Strongest(sources[..i + 1]) == strongest
  {
    var s := sources[i];
    assert sources[..i + 1][..i] == sources[..i];
    forall p ensures p in keys <==> Best(sources[..i], p) > 0.0 {
      ProviderIsPositive(sources[..i], p);
    }
    forall p ensures Best(sources[..i + 1], p) ==
                     if p == s.provider then Stronger(Best(sources[..i], p), s.confidence) else Best(sources[..i], p) {
    }
  }

  method StrongestByProvider(sources: seq<Provenance>) returns (keys: seq<Id>, strongest: map<Id, real>)
    ensures keys == Providers(sources) && strongest == Strongest(sources)
  {
    keys, strongest := [], map[];
    for i := 0 to |sources|
      invariant keys == Providers(sources[..i]) && strongest == Strongest(sources[..i])
    {
      NextStrongest(sources, i, keys, strongest);
      var s := sources[i];
      var previous := if s.provider in strongest then strongest[s.provider] else 0.0;
      if s.confidence > previous {
        keys := if s.provider in strongest then keys else keys + [s.provider];
        strongest := strongest[s.provider := s.confidence];
      }
    }
    assert sources[..|sources|] == sources;
  }

  method Corroborated(sources: seq<Provenance>) returns (confidence: real)
    ensures confidence == Confidence(sources)
  {
    hide Providers, Round4, Discount, Best;
    var keys, strongest := StrongestByProvider(sources);
    var combined := 1.0;
    for k := 0 to |keys|
      invariant combined == Fold(keys[..k], strongest, Discount, 1.0)
    {
      assert keys[..k + 1][..k] == keys[..k];
      combined := Discount(combined, strongest[keys[k]]);
    }
    assert keys[..|keys|] == keys;
    confidence := Min(CAP, Round4(1.0 - combined));
  }

  // ---------------------------------------------------------------- order does not matter

  lemma {:induction false} BestIsMax(sources: seq<Provenance>, p: Id)
    ensures forall s :: s in sources && s.provider == p ==> s.confidence <= Best(sources, p)
    ensures Best(sources, p) > 0.0 ==> exists s :: s in sources && s.provider == p && s.confidence == Best(sources, p)
  {
    if sources != [] {
      var front, last := sources[..|sources| - 1], sources[|sources| - 1];
      assert sources == front + [last];
      BestIsMax(front, p);
      if Best(sources, p) > 0.0 && Best(sources, p) == Best(front, p) {
        var s :| s in front && s.provider == p && s.confidence == Best(front, p);
        assert s in sources;
      }
    }
  }

  /** Whoever said nothing stronger is no better. */
  lemma BestBelow(sources: seq<Provenance>, p: Id, bound: real)
    requires bound >= 0.0 && forall s :: s in sources && s.provider == p ==> s.confidence <= bound
    ensures Best(sources, p) <= bound
  {
    BestIsMax(sources, p);
  }

  lemma BestOfSame(s: seq<Provenance>, t: seq<Provenance>, p: Id)
    requires Elems(s) == Elems(t)
    ensures Best(s, p) == Best(t, p)
  {
    BestIsMax(s, p);
    BestIsMax(t, p);
    forall x | x in s ensures x in t {
      assert x in Elems(t);
    }
    forall x | x in t ensures x in s {
      assert x in Elems(s);
    }
    BestBelow(s, p, Best(t, p));
    BestBelow(t, p, Best(s, p));
  }

  lemma DiscountCommutesAt(a: real, b: real, c: real)
    ensures CommutesAt(Discount, a, b, c)
  {
  }

  lemma DiscountCommutes()
    ensures Commutes(Discount)
  {
    forall a, b, c ensures CommutesAt(Discount, a, b, c) {
      DiscountCommutesAt(a, b, c);
    }
  }

  lemma SameStrongest(s: seq<Provenance>, t: seq<Provenance>)
    requires forall p :: Best(s, p) == Best(t, p)
    ensures Elems(Providers(s)) == Elems(Providers(t)) && Strongest(s) == Strongest(t)
  {
    forall p ensures p in Providers(s) <==> p in Providers(t) {
      ProviderIsPositive(s, p);
      ProviderIsPositive(t, p);
    }
  }

  lemma SameDoubtSameConfidence(s: seq<Provenance>, t: seq<Provenance>)
    requires Doubt(s) == Doubt(t)
    ensures Confidence(s) == Confidence(t)
  {
  }

  /** The same strongest word of every provider gives the same confidence. */
  lemma SameBestSameConfidence(s: seq<Provenance>, t: seq<Provenance>)
    requires forall p :: Best(s, p) == Best(t, p)
    ensures Confidence(s) == Confidence(t)
  {
    SameStrongest(s, t);
    DiscountCommutes();
    FoldAnyOrder(Providers(s), Providers(t), Strongest(s), Discount, 1.0);
    SameDoubtSameConfidence(s, t);
  }

  /** Neither the order of the sources nor an exact repeat matters. */
  lemma OrderDoesNotMatter(s: seq<Provenance>, t: seq<Provenance>)
    requires Elems(s) == Elems(t)
    ensures Confidence(s) == Confidence(t)
  {
    forall p ensures Best(s, p) == Best(t, p) {
      BestOfSame(s, t, p);
    }
    SameBestSameConfidence(s, t);
  }

  // ---------------------------------------------------------------- adding a source

  lemma BestSnoc(s: seq<Provenance>, x: Provenance, p: Id)
    ensures Best(s + [x], p) == if x.provider == p then Stronger(Best(s, p), x.confidence) else Best(s, p)
  {
    assert (s + [x])[..|s|] == s;
  }

  /** A provider does not corroborate itself: a repeat no stronger than its best changes nothing. */
  lemma WeakerRepeatIgnored(s: seq<Provenance>, x: Provenance)
    requires x.confidence <= Best(s, x.provider)
    ensures Confidence(s + [x]) == Confidence(s)
  {
    forall p ensures Best(s + [x], p) == Best(s, p) {
      BestSnoc(s, x, p);
    }
    SameBestSameConfidence(s + [x], s);
  }

  ghost predicate Likely(sources: seq<Provenance>) {
    forall s :: s in sources ==> 0.0 <= s.confidence <= 1.0
  }

  lemma Scaled(a: real, b: real)
    requires 0.0 <= a <= 1.0 && 0.0 <= b <= 1.0
    ensures 0.0 <= a * b <= a
  {
    assert a * b >= 0.0;
    assert a * (1.0 - b) >= 0.0;
    assert a * (1.0 - b) == a - a * b;
  }

  lemma {:induction false} DoubtInRange(keys: seq<Id>, m: map<Id, real>)
    requires forall p :: p in m ==> 0.0 <= m[p] <= 1.0
    ensures 0.0 <= Fold(keys, m, Discount, 1.0) <= 1.0
  {
    if keys != [] {
      DoubtInRange(keys[..|keys| - 1], m);
      var k := keys[|keys| - 1];
      if k in m {
        Scaled(Fold(keys[..|keys| - 1], m, Discount, 1.0), 1.0 - m[k]);
      }
    }
  }

  lemma StrongestInRange(s: seq<Provenance>)
    requires Likely(s)
    ensures forall p :: p in Strongest(s) ==> 0.0 <= Strongest(s)[p] <= 1.0
  {
    forall p ensures Best(s, p) <= 1.0 {
      BestBelow(s, p, 1.0);
    }
  }

  lemma Round4Monotone(a: real, b: real)
    requires a <= b
    ensures Round4(a) <= Round4(b)
    ensures 0.0 <= a ==> 0.0 <= Round4(a)
  {
    assert (a * 10000.0 + 0.5).Floor <= (b * 10000.0 + 0.5).Floor;
  }

  /** The confidence stays in [0, 0.99]. */
  lemma ConfidenceInRange(s: seq<Provenance>)
    requires Likely(s)
    ensures 0.0 <= Confidence(s) <= CAP
  {
    StrongestInRange(s);
    DoubtInRange(Providers(s), Strongest(s));
    Round4Monotone(1.0 - Doubt(s), 1.0);
  }

  lemma {:induction false} FoldIgnores(keys: seq<Id>, m: map<Id, real>, p: Id, v: real)
    requires p !in Elems(keys)
    ensures Fold(keys, m[p := v], Discount, 1.0) == Fold(keys, m, Discount, 1.0)
  {
    if keys != [] {
      assert keys[|keys| - 1] in Elems(keys);
      FoldIgnores(keys[..|keys| - 1], m, p, v);
    }
  }

  lemma LessDoubt(doubt: real, v: real, w: real)
    requires doubt >= 0.0 && v <= w
    ensures Discount(doubt, w) <= Discount(doubt, v)
  {
    assert doubt * (w - v) >= 0.0;
    assert doubt * (w - v) == doubt * (1.0 - v) - doubt * (1.0 - w);
  }

  /** A stronger word of a provider that has spoken leaves no more doubt. */
  lemma RaisedDoubt(keys: seq<Id>, m: map<Id, real>, p: Id, v: real)
    requires NoDup(keys) && Elems(keys) == m.Keys && p in m && m[p] <= v <= 1.0
    requires forall q :: q in m ==> 0.0 <= m[q] <= 1.0
    ensures Fold(keys, m[p := v], Discount, 1.0) <= Fold(keys, m, Discount, 1.0)
  {
    var i :| 0 <= i < |keys| && keys[i] == p;
    var rest := Without(keys, i);
    DiscountCommutes();
    FoldExtract(keys, m, Discount, 1.0, i);
    FoldExtract(keys, m[p := v], Discount, 1.0, i);
    WithoutElems(keys, i);
    FoldIgnores(rest, m, p, v);
    DoubtInRange(rest, m);
    LessDoubt(Fold(rest, m, Discount, 1.0), m[p], v);
  }

  /** The first word of a provider leaves no more doubt. */
  lemma AddedDoubt(keys: seq<Id>, m: map<Id, real>, p: Id, v: real)
    requires p !in Elems(keys) && 0.0 <= v <= 1.0 && forall q :: q in m ==> 0.0 <= m[q] <= 1.0
    ensures Fold(keys + [p], m[p := v], Discount, 1.0) <= Fold(keys, m, Discount, 1.0)
  {
    assert (keys + [p])[..|keys|] == keys;
    FoldIgnores(keys, m, p, v);
    DoubtInRange(keys, m);
    Scaled(Fold(keys, m, Discount, 1.0), 1.0 - v);
  }

  lemma DoubtFalls(s: seq<Provenance>, x: Provenance)
    requires Likely(s) && 0.0 <= x.confidence <= 1.0 && x.confidence > Best(s, x.provider)
    ensures Doubt(s + [x]) <= Doubt(s)
  {
    hide Providers, Best;
    var keys, m := Providers(s), Strongest(s);
    assert (s + [x])[..|s|] == s && (s + [x])[..|s| + 1] == s + [x];
    NextStrongest(s + [x], |s|, keys, m);
    ProviderIsPositive(s, x.provider);
    StrongestInRange(s);
    if x.provider in m {
      RaisedDoubt(keys, m, x.provider, x.confidence);
    } else {
      AddedDoubt(keys, m, x.provider, x.confidence);
    }
  }

  lemma LessDoubtNoWeaker(s: seq<Provenance>, t: seq<Provenance>)
    requires Doubt(t) <= Doubt(s)
    ensures Confidence(s) <= Confidence(t)
  {
    Round4Monotone(1.0 - Doubt(s), 1.0 - Doubt(t));
  }

  /** One more source never lowers the confidence. */
  lemma MoreSourcesNoWeaker(s: seq<Provenance>, x: Provenance)
    requires Likely(s) && 0.0 <= x.confidence <= 1.0
    ensures Confidence(s) <= Confidence(s + [x])
  {
    if x.confidence <= Best(s, x.provider) {
      WeakerRepeatIgnored(s, x);
    } else {
      DoubtFalls(s, x);
      LessDoubtNoWeaker(s, s + [x]);
    }
  }

  lemma {:induction false} LongerNoWeaker(s: seq<Provenance>, t: seq<Provenance>)
    requires s <= t && Likely(t)
    ensures Confidence(s) <= Confidence(t)
  {
    if s != t {
      var front, last := t[..|t| - 1], t[|t| - 1];
      assert t == front + [last] && s <= front;
      LongerNoWeaker(s, front);
      MoreSourcesNoWeaker(front, last);
    }
  }

  // ---------------------------------------------------------------- independent sources

  /** The chance that every one of the sources is wrong. */
  function AllWrong(sources: seq<Provenance>): real {
    if sources == [] then 1.0 else AllWrong(sources[..|sources| - 1]) * (1.0 - sources[|sources| - 1].confidence)
  }

  /** Each source speaks for a provider of its own and says something. */
  ghost predicate Independent(sources: seq<Provenance>) {
    && (forall i, j :: 0 <= i < j < |sources| ==> sources[i].provider != sources[j].provider)
    && forall s :: s in sources ==> s.confidence > 0.0
  }

  lemma NewWord(s: seq<Provenance>, x: Provenance)
    requires x.confidence > 0.0 && forall y :: y in s ==> y.provider != x.provider
    ensures Doubt(s + [x]) == Doubt(s) * (1.0 - x.confidence)
  {
    hide Providers, Strongest;
    var keys, m := Providers(s), Strongest(s);
    NewProvider(s, x);
    assert (keys + [x.provider])[..|keys|] == keys;
    FoldIgnores(keys, m, x.provider, x.confidence);
  }

  lemma NewProvider(s: seq<Provenance>, x: Provenance)
    requires x.confidence > 0.0 && forall y :: y in s ==> y.provider != x.provider
    ensures x.provider !in Elems(Providers(s))
    ensures Providers(s + [x]) == Providers(s) + [x.provider]
    ensures Strongest(s + [x]) == Strongest(s)[x.provider := x.confidence]
  {
    hide Providers;
    assert (s + [x])[..|s|] == s && (s + [x])[..|s| + 1] == s + [x];
    BestBelow(s, x.provider, 0.0);
    ProviderIsPositive(s, x.provider);
    NextStrongest(s + [x], |s|, Providers(s), Strongest(s));
  }

  lemma {:induction false} IndependentDoubt(s: seq<Provenance>)
    requires Independent(s)
    ensures Doubt(s) == AllWrong(s)
  {
    hide Doubt;
    if s == [] {
      NoSources();
    } else {
      var front, last := s[..|s| - 1], s[|s| - 1];
      assert s == front + [last] && last in s;
      IndependentDoubt(front);
      NewWord(front, last);
    }
  }

  lemma NoSources()
    ensures Doubt([]) == 1.0
  {
  }

  /** Rounding moves a value by at most half a ten-thousandth, to a whole number of them. */
  lemma RoundsToTenThousandths(v: real)
    ensures exists k: int :: InTenThousandths(v, k) && Round4(v) == k as real / 10000.0
  {
    assert InTenThousandths(v, (v * 10000.0 + 0.5).Floor);
  }

  predicate InTenThousandths(v: real, k: int) {
    -0.00005 <= v - k as real / 10000.0 < 0.00005
  }

  /** Independent sources leave the doubt that all of them are wrong, rounded and capped at 0.99. */
  lemma NoisyOr(s: seq<Provenance>)
    requires Independent(s)
    ensures Confidence(s) == Min(0.99, Round4(1.0 - AllWrong(s)))
  {
    hide Doubt, AllWrong, Round4;
    IndependentDoubt(s);
  }

  lemma BothWrong(x: Provenance, y: Provenance)
    ensures AllWrong([x]) == 1.0 - x.confidence
    ensures AllWrong([x, y]) == (1.0 - x.confidence) * (1.0 - y.confidence)
  {
    assert [x, y][..1] == [x] && [x][..0] == [];
  }

  lemma Expand(v: real, w: real)
    ensures 1.0 - (1.0 - v) * (1.0 - w) == v + w - v * w
  {
  }

  /** One source alone is worth what it says; two providers are worth what either of them sees. */
  lemma OneOrTwo(x: Provenance, y: Provenance)
    requires x.confidence > 0.0 && y.confidence > 0.0 && x.provider != y.provider
    ensures Confidence([x]) == Min(0.99, Round4(x.confidence))
    ensures Confidence([x, y]) == Min(0.99, Round4(x.confidence + y.confidence - x.confidence * y.confidence))
  {
    hide AllWrong, Round4, Confidence;
    NoisyOr([x]);
    NoisyOr([x, y]);
    BothWrong(x, y);
    Expand(x.confidence, y.confidence);
    assert 1.0 - (1.0 - x.confidence) == x.confidence;
  }
}
