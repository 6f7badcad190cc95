/** packages/integrations/src/consent.ts: the print is a canonical form. */
module CanonicalForm {
  import opened JsonText
  import opened CanonicalJson

  // ---------------------------------------------------------------- entries of an object

  ghost predicate EntryOf(fields: seq<Field>, k: nat, e: Entry)
    requires k < |fields|
  {
    Present(fields[k]) && e == Entry(fields[k].key, Canonical(fields[k].value))
  }

  lemma {:induction false} EntryHasField(fields: seq<Field>, e: Entry) returns (k: nat)
    requires e in Entries(fields)
    ensures k < |fields| && EntryOf(fields, k, e)
  {
    hide Canonical;
    if Present(fields[0]) && e == Entry(fields[0].key, Canonical(fields[0].value)) {
      k := 0;
    } else {
      var i := EntryHasField(fields[1..], e);
      k := i + 1;
    }
  }

  lemma {:induction false} FieldHasEntry(fields: seq<Field>, k: nat)
    requires k < |fields| && Present(fields[k])
    ensures Entry(fields[k].key, Canonical(fields[k].value)) in Entries(fields)
  {
    hide Canonical;
    if k > 0 {
      FieldHasEntry(fields[1..], k - 1);
      assert fields[1..][k - 1] == fields[k];
    }
  }

  ghost predicate UniqueKeys(fields: seq<Field>) {
    forall i, k :: 0 <= i < k < |fields| ==> fields[i].key != fields[k].key
  }

  lemma {:induction false} EntriesDistinct(fields: seq<Field>)
    requires UniqueKeys(fields)
    ensures DistinctKeys(Entries(fields))
  {
    hide Canonical;
    if fields != [] {
      EntriesDistinct(fields[1..]);
      var rest := Entries(fields[1..]);
      forall e | e in rest ensures e.key != fields[0].key {
        var k := EntryHasField(fields[1..], e);
      }
    }
  }

  // ---------------------------------------------------------------- the print can be read in one way

  /** What follows the first item of a list. */
  function RestOf(items: seq<Json>, x: Text): Text
    requires items != []
  {
    if |items| == 1 then [CLOSE_LIST] + x else [COMMA] + JoinItems(items[1..]) + [CLOSE_LIST] + x
  }

  lemma JoinItemsFirst(items: seq<Json>)
    requires items != []
    ensures JoinItems(items) ==
            if |items| == 1 then Canonical(items[0]) else Canonical(items[0]) + [COMMA] + JoinItems(items[1..])
  {
    hide Canonical;
  }

  lemma Regroup(first: Text, c: Unit, others: Text, d: Unit, x: Text)
    ensures first + [c] + others + [d] + x == first + ([c] + others + [d] + x)
    ensures first + [d] + x == first + ([d] + x)
  {
  }

  lemma ItemsFirst(items: seq<Json>, x: Text)
    requires items != []
    ensures JoinItems(items) + [CLOSE_LIST] + x == Canonical(items[0]) + RestOf(items, x)
    ensures Stop(RestOf(items, x))
  {
    hide Canonical, JoinItems;
    JoinItemsFirst(items);
    Regroup(Canonical(items[0]), COMMA, JoinItems(items[1..]), CLOSE_LIST, x);
  }

  lemma RestOfUnique(p: seq<Json>, q: seq<Json>, x: Text, y: Text)
    requires p != [] && q != [] && RestOf(p, x) == RestOf(q, y)
    ensures |p| == 1 <==> |q| == 1
    ensures |p| == 1 ==> x == y
    ensures |p| > 1 ==> JoinItems(p[1..]) + [CLOSE_LIST] + x == JoinItems(q[1..]) + [CLOSE_LIST] + y
  {
    hide JoinItems;
    assert RestOf(p, x)[0] == RestOf(q, y)[0];
    if |p| == 1 {
      assert RestOf(p, x)[1..] == x && RestOf(q, y)[1..] == y;
    } else {
      assert RestOf(p, x)[1..] == JoinItems(p[1..]) + [CLOSE_LIST] + x;
      assert RestOf(q, y)[1..] == JoinItems(q[1..]) + [CLOSE_LIST] + y;
    }
  }

  lemma NoItemIsClosing(p: seq<Json>, x: Text, y: Text)
    requires p != []
    ensures JoinItems(p) + [CLOSE_LIST] + x != [CLOSE_LIST] + y
  {
    hide JoinItems, Canonical;
    ItemsFirst(p, x);
    FirstUnit(p[0]);
    assert (Canonical(p[0]) + RestOf(p, x))[0] == Canonical(p[0])[0];
    assert ([CLOSE_LIST] + y)[0] == CLOSE_LIST;
  }

  lemma ItemsOneEmpty(p: seq<Json>, q: seq<Json>, x: Text, y: Text)
    requires p == [] || q == []
    requires JoinItems(p) + [CLOSE_LIST] + x == JoinItems(q) + [CLOSE_LIST] + y
    ensures p == q && x == y
  {
    assert JoinItems([]) + [CLOSE_LIST] + x == [CLOSE_LIST] + x;
    assert JoinItems([]) + [CLOSE_LIST] + y == [CLOSE_LIST] + y;
    if p != [] {
      NoItemIsClosing(p, x, y);
    } else if q != [] {
      NoItemIsClosing(q, y, x);
    } else {
      SameSplit([CLOSE_LIST], x, [CLOSE_LIST], y);
    }
  }

  ghost predicate PlainAll(items: seq<Json>) {
    forall k :: 0 <= k < |items| ==> Plain(items[k])
  }

  ghost predicate SamePrints(p: seq<Json>, q: seq<Json>) {
    |p| == |q| && forall k :: 0 <= k < |p| ==> Canonical(p[k]) == Canonical(q[k])
  }

  lemma {:induction false} ItemsUnique(p: seq<Json>, q: seq<Json>, x: Text, y: Text)
    requires PlainAll(p) && PlainAll(q)
    requires JoinItems(p) + [CLOSE_LIST] + x == JoinItems(q) + [CLOSE_LIST] + y
    ensures SamePrints(p, q) && x == y
    decreases p
  {
    hide JoinItems, Canonical, Stop, RestOf, Plain;
    if p == [] || q == [] {
      ItemsOneEmpty(p, q, x, y);
    } else {
      ItemsFirst(p, x);
      ItemsFirst(q, y);
      PrintUnique(p[0], q[0], RestOf(p, x), RestOf(q, y));
      SameSplit(Canonical(p[0]), RestOf(p, x), Canonical(q[0]), RestOf(q, y));
      RestOfUnique(p, q, x, y);
      if |p| > 1 {
        ItemsUnique(p[1..], q[1..], x, y);
        assert forall k :: 0 < k < |p| ==> p[k] == p[1..][k - 1] && q[k] == q[1..][k - 1];
      }
    }
  }

  ghost predicate PlainFields(fields: seq<Field>) {
    (forall k :: 0 <= k < |fields| ==> Plain(fields[k].value)) && UniqueKeys(fields)
  }

  lemma {:induction false} FieldsApart(fa: seq<Field>, fb: seq<Field>)
    requires PlainFields(fa) && PlainFields(fb)
    ensures AllApart(Sorted(Entries(fa)), Sorted(Entries(fb)))
    decreases fa, 0
  {
    hide Canonical, Stop, Plain, Apart, Sorted;
    SortedMembers(Entries(fa));
    SortedMembers(Entries(fb));
    forall e, f | e in Sorted(Entries(fa)) && f in Sorted(Entries(fb)) ensures Apart(e.text, f.text) {
      var i := EntryHasField(fa, e);
      var k := EntryHasField(fb, f);
      ValuesApart(fa[i].value, fb[k].value);
    }
  }

  lemma {:induction false} ValuesApart(a: Json, b: Json)
    requires Plain(a) && Plain(b)
    ensures Apart(Canonical(a), Canonical(b))
    decreases a, 1
  {
    hide Canonical, Stop, Plain;
    forall x: Text, y: Text | Stop(x) && Stop(y) && Canonical(a) + x == Canonical(b) + y
      ensures Canonical(a) == Canonical(b) && x == y
    {
      PrintUnique(a, b, x, y);
    }
  }

  /** No print is confused with another: what stands before a stop is one value's whole text. */
  lemma {:induction false} PrintUnique(a: Json, b: Json, x: Text, y: Text)
    requires Plain(a) && Plain(b) && Stop(x) && Stop(y) && Canonical(a) + x == Canonical(b) + y
    ensures Canonical(a) == Canonical(b) && x == y
    decreases a, 0
  {
    hide Stop, Quoted, Number, JoinItems, JoinEntries, Sorted, Entries;
    SameKind(a, b, x, y);
    match a
    case Undefined => SameSplit(NULL_TEXT, x, NULL_TEXT, y);
    case Null => SameSplit(NULL_TEXT, x, NULL_TEXT, y);
    case Bool(_) => SameSplit(Canonical(a), x, Canonical(a), y);
    case Int(n) => NumberUnique(n, b.n, x, y);
    case Str(s) => QuotedUnique(s, b.s, x, y);
    case Arr(items) =>
      Inside(OPEN_LIST, JoinItems(items), JoinItems(b.items), CLOSE_LIST, x, y);
      ItemsUnique(items, b.items, x, y);
      SameSuffix(Canonical(a), Canonical(b), x);
    case Obj(fields) =>
      Inside(OPEN_OBJECT, JoinEntries(Sorted(Entries(fields))), JoinEntries(Sorted(Entries(b.fields))), CLOSE_OBJECT, x, y);
      FieldsApart(fields, b.fields);
      JoinUnique(Sorted(Entries(fields)), Sorted(Entries(b.fields)), x, y);
  }

  lemma Inside(open: Unit, s: Text, t: Text, close: Unit, x: Text, y: Text)
    requires [open] + s + [close] + x == [open] + t + [close] + y
    ensures s + [close] + x == t + [close] + y
  {
    assert s + [close] + x == ([open] + s + [close] + x)[1..];
    assert t + [close] + y == ([open] + t + [close] + y)[1..];
  }

  lemma SameSuffix(s: Text, t: Text, x: Text)
    requires s + x == t + x
    ensures s == t
  {
    assert |s| == |t|;
    SameSplit(s, x, t, x);
  }

  // ---------------------------------------------------------------- equal prints, equal values

  /** Equal prints of two objects list equal entries. */
  lemma ObjectsPrintAlike(fa: seq<Field>, fb: seq<Field>)
    requires PlainFields(fa) && PlainFields(fb) && Canonical(Obj(fa)) == Canonical(Obj(fb))
    ensures Sorted(Entries(fa)) == Sorted(Entries(fb))
  {
    hide Sorted, Entries, JoinEntries, Plain, Apart;
    var p, q := Sorted(Entries(fa)), Sorted(Entries(fb));
    assert [OPEN_OBJECT] + JoinEntries(p) + [CLOSE_OBJECT] + [] == [OPEN_OBJECT] + JoinEntries(q) + [CLOSE_OBJECT] + [];
    Inside(OPEN_OBJECT, JoinEntries(p), JoinEntries(q), CLOSE_OBJECT, [], []);
    FieldsApart(fa, fb);
    JoinUnique(p, q, [], []);
  }

  /** The field of `fb` that prints like field `i` of `fa`. */
  lemma PrintsAlikePartner(fa: seq<Field>, fb: seq<Field>, i: nat) returns (k: nat)
    requires Sorted(Entries(fa)) == Sorted(Entries(fb)) && i < |fa| && Present(fa[i])
    ensures k < |fb| && Present(fb[k]) && fb[k].key == fa[i].key && Canonical(fb[k].value) == Canonical(fa[i].value)
  {
    hide Sorted, Entries, Canonical;
    FieldHasEntry(fa, i);
    SortedMembers(Entries(fa));
    SortedMembers(Entries(fb));
    k := EntryHasField(fb, Entry(fa[i].key, Canonical(fa[i].value)));
  }

  lemma {:induction false} ListsPrintAlike(p: seq<Json>, q: seq<Json>)
    requires PlainAll(p) && PlainAll(q) && Canonical(Arr(p)) == Canonical(Arr(q))
    ensures SamePrints(p, q)
  {
    hide JoinItems, Plain;
    assert [OPEN_LIST] + JoinItems(p) + [CLOSE_LIST] + [] == [OPEN_LIST] + JoinItems(q) + [CLOSE_LIST] + [];
    Inside(OPEN_LIST, JoinItems(p), JoinItems(q), CLOSE_LIST, [], []);
    ItemsUnique(p, q, [], []);
  }

  lemma {:induction false} EqualPrintsAreSame(a: Json, b: Json)
    requires Plain(a) && Plain(b) && Canonical(a) == Canonical(b)
    ensures Same(a, b)
    decreases a
  {
    hide Canonical;
    SameKind(a, b, [], []);
    match a
    case Undefined =>
    case Null =>
    case Bool(_) =>
    case Int(n) => IntsPrintAlike(n, b.n);
    case Str(s) => StringsPrintAlike(s, b.s);
    case Arr(items) =>
      ListsPrintAlike(items, b.items);
      forall k | 0 <= k < |items| ensures Same(items[k], b.items[k]) {
        EqualPrintsAreSame(items[k], b.items[k]);
      }
    case Obj(fields) =>
      ObjectsPrintAlike(fields, b.fields);
      forall i | 0 <= i < |fields| && Present(fields[i]) ensures HasPartner(fields, i, b.fields) {
        var k := PrintsAlikePartner(fields, b.fields, i);
        EqualPrintsAreSame(fields[i].value, b.fields[k].value);
      }
      forall key | HasKey(b.fields, key) ensures HasKey(fields, key) {
        var k :| 0 <= k < |b.fields| && Present(b.fields[k]) && b.fields[k].key == key;
        var i := PrintsAlikePartner(b.fields, fields, k);
      }
  }

  lemma IntsPrintAlike(m: int, n: int)
    requires Canonical(Int(m)) == Canonical(Int(n))
    ensures m == n
  {
    hide Number;
    assert Number(m) + [] == Number(n) + [];
    NumberUnique(m, n, [], []);
  }

  lemma StringsPrintAlike(s: Text, t: Text)
    requires Canonical(Str(s)) == Canonical(Str(t))
    ensures s == t
  {
    hide Quoted;
    assert Quoted(s) + [] == Quoted(t) + [];
    QuotedUnique(s, t, [], []);
  }

  // ---------------------------------------------------------------- same values, equal prints

  lemma {:induction false} SameListsPrintAlike(p: seq<Json>, q: seq<Json>)
    requires SamePrints(p, q)
    ensures JoinItems(p) == JoinItems(q)
  {
    hide Canonical;
    if |p| > 1 {
      assert forall k :: 0 <= k < |p| - 1 ==> p[1..][k] == p[k + 1] && q[1..][k] == q[k + 1];
      SameListsPrintAlike(p[1..], q[1..]);
    }
  }

  /** Each present field of `fa` prints like the field of `fb` with its key. */
  ghost predicate PrintsAlike(fa: seq<Field>, i: nat, fb: seq<Field>)
    requires i < |fa|
  {
    exists k :: 0 <= k < |fb| && Present(fb[k]) && fb[k].key == fa[i].key && Canonical(fb[k].value) == Canonical(fa[i].value)
  }

  lemma EntriesInclude(fa: seq<Field>, fb: seq<Field>, e: Entry)
    requires e in Entries(fa) && forall i :: 0 <= i < |fa| && Present(fa[i]) ==> PrintsAlike(fa, i, fb)
    ensures e in Entries(fb)
  {
    hide Canonical, Entries;
    var i := EntryHasField(fa, e);
    assert PrintsAlike(fa, i, fb);
    var k :| 0 <= k < |fb| && Present(fb[k]) && fb[k].key == fa[i].key && Canonical(fb[k].value) == Canonical(fa[i].value);
    FieldHasEntry(fb, k);
  }

  lemma SameEntriesSameOrder(fa: seq<Field>, fb: seq<Field>)
    requires UniqueKeys(fa) && UniqueKeys(fb) && forall e :: e in Entries(fa) <==> e in Entries(fb)
    ensures Sorted(Entries(fa)) == Sorted(Entries(fb))
  {
    hide Entries, Sorted;
    EntriesDistinct(fa);
    EntriesDistinct(fb);
    SortedOrdered(Entries(fa));
    SortedOrdered(Entries(fb));
    SortedMembers(Entries(fa));
    SortedMembers(Entries(fb));
    OrderedUnique(Sorted(Entries(fa)), Sorted(Entries(fb)));
  }

  /** If every field of `fa` has its partner in `fb` and `fb` has no other key, partners go both ways. */
  lemma PartnersBothWays(fa: seq<Field>, fb: seq<Field>, k: nat)
    requires UniqueKeys(fb) && k < |fb| && Present(fb[k]) && HasKey(fa, fb[k].key)
    requires forall i :: 0 <= i < |fa| && Present(fa[i]) ==> PrintsAlike(fa, i, fb)
    ensures PrintsAlike(fb, k, fa)
  {
    hide Canonical;
    var i :| 0 <= i < |fa| && Present(fa[i]) && fa[i].key == fb[k].key;
    assert PrintsAlike(fa, i, fb);
    var m :| 0 <= m < |fb| && Present(fb[m]) && fb[m].key == fa[i].key && Canonical(fb[m].value) == Canonical(fa[i].value);
    assert m == k;
  }

  lemma SameObjectsPrintAlike(fa: seq<Field>, fb: seq<Field>)
    requires UniqueKeys(fa) && UniqueKeys(fb) && forall key :: HasKey(fb, key) ==> HasKey(fa, key)
    requires forall i :: 0 <= i < |fa| && Present(fa[i]) ==> PrintsAlike(fa, i, fb)
    ensures Canonical(Obj(fa)) == Canonical(Obj(fb))
  {
    hide Entries, Sorted, PrintsAlike;
    forall k | 0 <= k < |fb| && Present(fb[k]) ensures PrintsAlike(fb, k, fa) {
      assert HasKey(fb, fb[k].key);
      PartnersBothWays(fa, fb, k);
    }
    forall e ensures e in Entries(fa) <==> e in Entries(fb) {
      if e in Entries(fa) {
        EntriesInclude(fa, fb, e);
      }
      if e in Entries(fb) {
        EntriesInclude(fb, fa, e);
      }
    }
    SameEntriesSameOrder(fa, fb);
  }

  lemma {:induction false} SamePrintEqual(a: Json, b: Json)
    requires Plain(a) && Plain(b) && Same(a, b)
    ensures Canonical(a) == Canonical(b)
    decreases a
  {
    hide Quoted, Number, JoinItems, JoinEntries, Sorted, Entries;
    match a
    case Undefined =>
    case Null =>
    case Bool(_) =>
    case Int(_) =>
    case Str(_) =>
    case Arr(items) =>
      forall k | 0 <= k < |items| ensures Canonical(items[k]) == Canonical(b.items[k]) {
        SamePrintEqual(items[k], b.items[k]);
      }
      SameListsPrintAlike(items, b.items);
    case Obj(fields) =>
      forall i | 0 <= i < |fields| && Present(fields[i]) ensures PrintsAlike(fields, i, b.fields) {
        assert HasPartner(fields, i, b.fields);
        var k :| 0 <= k < |b.fields| && Present(b.fields[k]) && b.fields[k].key == fields[i].key
                 && Same(fields[i].value, b.fields[k].value);
        SamePrintEqual(fields[i].value, b.fields[k].value);
      }
      SameObjectsPrintAlike(fields, b.fields);
  }

  /** The print is a canonical form: two values print alike exactly when they are equal up to the order
      of their keys. */
  lemma CanonicalIffSame(a: Json, b: Json)
    requires Plain(a) && Plain(b)
    ensures Canonical(a) == Canonical(b) <==> Same(a, b)
  {
    if Canonical(a) == Canonical(b) {
      EqualPrintsAreSame(a, b);
    }
    if Same(a, b) {
      SamePrintEqual(a, b);
    }
  }

  // ---------------------------------------------------------------- the dedupe key

  predicate OneLine(t: Text) {
    NEWLINE !in t
  }

  lemma {:induction false} DigitsOneLine(n: nat)
    ensures OneLine(Digits(n))
  {
    assert forall k :: 0 <= k < |Digits(n)| ==> IsDigit(Digits(n)[k]);
  }

  lemma FrontOneLine(s: Text)
    requires s != []
    ensures OneLine(Front(s).1)
  {
    if High(s[0]) && |s| > 1 && Low(s[1]) {
      assert s[..2] == [s[0], s[1]];
    }
  }

  lemma {:induction false} EscapedOneLine(s: Text)
    ensures OneLine(Escaped(s))
  {
    hide Front;
    if s != [] {
      FrontOneLine(s);
      EscapedOneLine(s[Front(s).0..]);
    }
  }

  lemma {:induction false} ItemsOneLine(items: seq<Json>)
    ensures OneLine(JoinItems(items))
    decreases items
  {
    hide Canonical;
    if items != [] {
      PrintOneLine(items[0]);
      ItemsOneLine(items[1..]);
    }
  }

  lemma {:induction false} EntriesOneLine(s: seq<Entry>)
    requires forall e :: e in s ==> OneLine(e.text)
    ensures OneLine(JoinEntries(s))
  {
    hide Escaped;
    if s != [] {
      assert s[0] in s;
      EscapedOneLine(s[0].key);
      forall e | e in s[1..] ensures OneLine(e.text) {
        assert e in s;
      }
      EntriesOneLine(s[1..]);
    }
  }

  /** The print never spans lines: line breaks inside strings are escaped. */
  lemma {:induction false} PrintOneLine(j: Json)
    ensures OneLine(Canonical(j))
    decreases j
  {
    hide Escaped, Digits, JoinItems, JoinEntries, Sorted, Entries;
    match j
    case Undefined =>
    case Null =>
    case Bool(_) =>
    case Int(n) => DigitsOneLine(if n < 0 then -n else n);
    case Str(s) => EscapedOneLine(s);
    case Arr(items) => ItemsOneLine(items);
    case Obj(fields) =>
      SortedMembers(Entries(fields));
      forall e | e in Sorted(Entries(fields)) ensures OneLine(e.text) {
        var k := EntryHasField(fields, e);
        PrintOneLine(fields[k].value);
      }
      EntriesOneLine(Sorted(Entries(fields)));
  }

  /** What follows the last line break. */
  function LastLine(t: Text): Text {
    if t == [] || t[|t| - 1] == NEWLINE then [] else LastLine(t[..|t| - 1]) + [t[|t| - 1]]
  }

  lemma {:induction false} LastLineOf(s: Text, x: Text)
    requires OneLine(x)
    ensures LastLine(s + [NEWLINE] + x) == x
  {
    var t := s + [NEWLINE] + x;
    if x != [] {
      assert x[|x| - 1] in x;
      LastLineOf(s, x[..|x| - 1]);
      assert t[..|t| - 1] == s + [NEWLINE] + x[..|x| - 1];
    }
  }

  /** With a hash that does not collide, two runs share a dedupe key exactly when they are the same
      integration with the same input. */
  lemma SameHashSameInput(hash: Text -> Text, id: Text, a: Json, other: Text, b: Json)
    requires Plain(a) && Plain(b) && forall s, t :: hash(s) == hash(t) ==> s == t
    ensures InputHash(hash, id, a) == InputHash(hash, other, b) <==> id == other && Same(a, b)
  {
    hide Canonical, Plain;
    CanonicalIffSame(a, b);
    PrintOneLine(a);
    PrintOneLine(b);
    if InputHash(hash, id, a) == InputHash(hash, other, b) {
      LastLineOf(id, Canonical(a));
      LastLineOf(other, Canonical(b));
      SameSuffix(id + [NEWLINE], other + [NEWLINE], Canonical(a));
      SameSuffix(id, other, [NEWLINE]);
    }
  }
}
