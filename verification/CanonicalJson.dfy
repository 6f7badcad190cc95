/** packages/integrations/src/consent.ts: the canonical print of a JSON value. */
module CanonicalJson {
  import opened Wrappers
  import opened JsonText

  /** `fields` are in insertion order. Undefined is what a missing optional input carries. */
  datatype Json =
    | Undefined
    | Null
    | Bool(b: bool)
    | Int(n: int)
    | Str(s: Text)
    | Arr(items: seq<Json>)
    | Obj(fields: seq<Field>)

  datatype Field = Field(key: Text, value: Json)

  datatype Entry = Entry(key: Text, text: Text)

  /** A value as a program can build it: no key twice in one object, integers below the size at which
      numbers are printed with an exponent. */
  ghost predicate Plain(j: Json) {
    match j
    case Int(n) => -1_000_000_000_000_000_000_000 < n < 1_000_000_000_000_000_000_000
    case Arr(items) => forall k :: 0 <= k < |items| ==> Plain(items[k])
    case Obj(fields) =>
      (forall k :: 0 <= k < |fields| ==> Plain(fields[k].value))
      && (forall i, k :: 0 <= i < k < |fields| ==> fields[i].key != fields[k].key)
    case _ => true
  }

  // ---------------------------------------------------------------- the print

  function InsertEntry(e: Entry, s: seq<Entry>): seq<Entry> {
    if s == [] then [e]
    else if Less(s[0].key, e.key) then [s[0]] + InsertEntry(e, s[1..])
    else [e] + s
  }

  function Sorted(s: seq<Entry>): seq<Entry> {
    if s == [] then [] else InsertEntry(s[0], Sorted(s[1..]))
  }

  /** The defined entries, each printed. */
  function Entries(fields: seq<Field>): seq<Entry> {
    if fields == [] then [] else
      var rest := Entries(fields[1..]);
      if fields[0].value.Undefined? then rest else [Entry(fields[0].key, Canonical(fields[0].value))] + rest
  }

  function Printed(e: Entry): Text {
    Quoted(e.key) + [COLON] + e.text
  }

  function JoinEntries(s: seq<Entry>): Text {
    if s == [] then []
    else if |s| == 1 then Printed(s[0])
    else Printed(s[0]) + [COMMA] + JoinEntries(s[1..])
  }

  function JoinItems(items: seq<Json>): Text {
    if items == [] then []
    else if |items| == 1 then Canonical(items[0])
    else Canonical(items[0]) + [COMMA] + JoinItems(items[1..])
  }

  const NULL_TEXT: Text := [110, 117, 108, 108]
  const TRUE_TEXT: Text := [116, 114, 117, 101]
  const FALSE_TEXT: Text := [102, 97, 108, 115, 101]

  function Canonical(j: Json): Text {
    match j
    case Undefined => NULL_TEXT
    case Null => NULL_TEXT
    case Bool(b) => if b then TRUE_TEXT else FALSE_TEXT
    case Int(n) => Number(n)
    case Str(s) => Quoted(s)
    case Arr(items) => [OPEN_LIST] + JoinItems(items) + [CLOSE_LIST]
    case Obj(fields) => [OPEN_OBJECT] + JoinEntries(Sorted(Entries(fields))) + [CLOSE_OBJECT]
  }

  function InputHash(hash: Text -> Text, integrationId: Text, input: Json): Text {
    hash(integrationId + [NEWLINE] + Canonical(input))
  }

  // ---------------------------------------------------------------- equality up to key order

  predicate Present(f: Field) {
    !f.value.Undefined?
  }

  /** Field `i` of `a` has an equal partner among the fields of `b`. */
  ghost predicate HasPartner(fa: seq<Field>, i: nat, fb: seq<Field>)
    requires i < |fa|
  {
    exists k :: 0 <= k < |fb| && Present(fb[k]) && fb[k].key == fa[i].key && Same(fa[i].value, fb[k].value)
  }

  /** The keys that are present. */
  ghost predicate HasKey(fields: seq<Field>, key: Text) {
    exists k :: 0 <= k < |fields| && Present(fields[k]) && fields[k].key == key
  }

  /** Equal but for the order of keys; an absent value is the same as null, and as no field at all. */
  ghost predicate Same(a: Json, b: Json) {
    match a
    case Undefined => b.Undefined? || b.Null?
    case Null => b.Undefined? || b.Null?
    case Bool(_) => a == b
    case Int(_) => a == b
    case Str(_) => a == b
    case Arr(items) => b.Arr? && |items| == |b.items| && forall k :: 0 <= k < |items| ==> Same(items[k], b.items[k])
    case Obj(fields) =>
      b.Obj? && (forall i :: 0 <= i < |fields| && Present(fields[i]) ==> HasPartner(fields, i, b.fields))
      && forall key :: HasKey(b.fields, key) ==> HasKey(fields, key)
  }

  // ---------------------------------------------------------------- what a text starts with

  /** The kind of value a first unit announces. */
  function Kind(u: Unit): int {
    if u == 110 then 0
    else if u == 116 then 1
    else if u == 102 then 2
    else if u == MINUS || IsDigit(u) then 3
    else if u == QUOTE then 4
    else if u == OPEN_LIST then 5
    else if u == OPEN_OBJECT then 6
    else -1
  }

  function KindOf(j: Json): int {
    match j
    case Undefined => 0
    case Null => 0
    case Bool(b) => if b then 1 else 2
    case Int(_) => 3
    case Str(_) => 4
    case Arr(_) => 5
    case Obj(_) => 6
  }

  lemma FirstUnit(j: Json)
    ensures Canonical(j) != [] && Kind(Canonical(j)[0]) == KindOf(j)
  {
    hide Digits, Escaped, JoinItems, JoinEntries;
  }

  lemma SameKind(a: Json, b: Json, x: Text, y: Text)
    requires Canonical(a) + x == Canonical(b) + y
    ensures KindOf(a) == KindOf(b)
  {
    hide Canonical;
    FirstUnit(a);
    FirstUnit(b);
    assert (Canonical(a) + x)[0] == Canonical(a)[0] && (Canonical(b) + y)[0] == Canonical(b)[0];
  }

  // ---------------------------------------------------------------- lists of entries

  /** Whatever may follow them, the two texts can only be confused by being the same. */
  ghost predicate Apart(s: Text, t: Text) {
    forall x: Text, y: Text :: Stop(x) && Stop(y) && s + x == t + y ==> s == t && x == y
  }

  ghost predicate AllApart(p: seq<Entry>, q: seq<Entry>) {
    forall e, f :: e in p && f in q ==> Apart(e.text, f.text)
  }

  /** What follows the first entry. */
  function Rest(p: seq<Entry>, x: Text): Text
    requires p != []
  {
    if |p| == 1 then [CLOSE_OBJECT] + x else [COMMA] + JoinEntries(p[1..]) + [CLOSE_OBJECT] + x
  }

  lemma JoinFirst(p: seq<Entry>, x: Text)
    requires p != []
    ensures JoinEntries(p) + [CLOSE_OBJECT] + x == Quoted(p[0].key) + ([COLON] + p[0].text + Rest(p, x))
    ensures Stop(Rest(p, x))
  {
    hide Quoted;
  }

  lemma FirstEntryUnique(e: Entry, f: Entry, x: Text, y: Text)
    requires Apart(e.text, f.text) && Stop(x) && Stop(y)
    requires Quoted(e.key) + ([COLON] + e.text + x) == Quoted(f.key) + ([COLON] + f.text + y)
    ensures e == f && x == y
  {
    hide Quoted, Stop;
    QuotedUnique(e.key, f.key, [COLON] + e.text + x, [COLON] + f.text + y);
    DropFirst(COLON, e.text, x, f.text, y);
  }

  lemma JoinNeverEmpty(p: seq<Entry>, x: Text, y: Text)
    requires p != []
    ensures JoinEntries(p) + [CLOSE_OBJECT] + x != [CLOSE_OBJECT] + y
  {
    hide JoinEntries, Escaped;
    JoinFirst(p, x);
    assert (Quoted(p[0].key) + ([COLON] + p[0].text + Rest(p, x)))[0] == QUOTE;
    assert ([CLOSE_OBJECT] + y)[0] == CLOSE_OBJECT;
  }

  lemma TailApart(p: seq<Entry>, q: seq<Entry>)
    requires p != [] && q != [] && AllApart(p, q)
    ensures Apart(p[0].text, q[0].text) && AllApart(p[1..], q[1..])
  {
    hide Apart;
    assert p[0] in p && q[0] in q;
    forall e, f | e in p[1..] && f in q[1..] ensures Apart(e.text, f.text) {
      assert e in p && f in q;
    }
  }

  lemma RestUnique(p: seq<Entry>, q: seq<Entry>, x: Text, y: Text)
    requires p != [] && q != [] && Rest(p, x) == Rest(q, y)
    ensures |p| == 1 <==> |q| == 1
    ensures |p| == 1 ==> x == y
    ensures |p| > 1 ==> JoinEntries(p[1..]) + [CLOSE_OBJECT] + x == JoinEntries(q[1..]) + [CLOSE_OBJECT] + y
  {
    hide JoinEntries;
    assert Rest(p, x)[0] == Rest(q, y)[0];
    if |p| == 1 {
      assert Rest(p, x)[1..] == x && Rest(q, y)[1..] == y;
    } else {
      assert Rest(p, x)[1..] == JoinEntries(p[1..]) + [CLOSE_OBJECT] + x;
      assert Rest(q, y)[1..] == JoinEntries(q[1..]) + [CLOSE_OBJECT] + y;
    }
  }

  /** A printed list of entries can be read in one way only. */
  lemma {:induction false} JoinUnique(p: seq<Entry>, q: seq<Entry>, x: Text, y: Text)
    requires AllApart(p, q) && JoinEntries(p) + [CLOSE_OBJECT] + x == JoinEntries(q) + [CLOSE_OBJECT] + y
    ensures p == q && x == y
  {
    hide JoinEntries, Apart, Rest, Quoted, Stop, AllApart;
    if p == [] || q == [] {
      JoinOneEmpty(p, q, x, y);
    } else {
      TailApart(p, q);
      JoinFirst(p, x);
      JoinFirst(q, y);
      FirstEntryUnique(p[0], q[0], Rest(p, x), Rest(q, y));
      RestUnique(p, q, x, y);
      if |p| > 1 {
        JoinUnique(p[1..], q[1..], x, y);
      }
      assert p == [p[0]] + p[1..] && q == [q[0]] + q[1..];
    }
  }

  lemma JoinOneEmpty(p: seq<Entry>, q: seq<Entry>, x: Text, y: Text)
    requires p == [] || q == []
    requires JoinEntries(p) + [CLOSE_OBJECT] + x == JoinEntries(q) + [CLOSE_OBJECT] + y
    ensures p == q && x == y
  {
    assert JoinEntries([]) + [CLOSE_OBJECT] + x == [CLOSE_OBJECT] + x;
    assert JoinEntries([]) + [CLOSE_OBJECT] + y == [CLOSE_OBJECT] + y;
    if p != [] {
      JoinNeverEmpty(p, x, y);
    } else if q != [] {
      JoinNeverEmpty(q, y, x);
    } else {
      SameSplit([CLOSE_OBJECT], x, [CLOSE_OBJECT], y);
    }
  }

  // ---------------------------------------------------------------- sorting entries

  ghost predicate Ordered(s: seq<Entry>) {
    forall i, j :: 0 <= i < j < |s| ==> Less(s[i].key, s[j].key)
  }

  lemma {:induction false} InsertMembers(e: Entry, s: seq<Entry>)
    ensures forall x :: x in InsertEntry(e, s) <==> x == e || x in s
  {
    if s != [] {
      InsertMembers(e, s[1..]);
      assert s == [s[0]] + s[1..];
    }
  }

  lemma {:induction false} SortedMembers(s: seq<Entry>)
    ensures forall x :: x in Sorted(s) <==> x in s
  {
    if s != [] {
      SortedMembers(s[1..]);
      InsertMembers(s[0], Sorted(s[1..]));
      assert s == [s[0]] + s[1..];
    }
  }

  lemma BeforeAll(e: Entry, s: seq<Entry>)
    requires Ordered(s) && (s != [] ==> Less(e.key, s[0].key))
    ensures Ordered([e] + s)
  {
    forall j | 0 <= j < |s| ensures Less(e.key, s[j].key) {
      if j > 0 {
        LessTransitive(e.key, s[0].key, s[j].key);
      }
    }
  }

  lemma {:induction false} InsertOrdered(e: Entry, s: seq<Entry>)
    requires Ordered(s) && forall x :: x in s ==> x.key != e.key
    ensures Ordered(InsertEntry(e, s))
  {
    if s == [] {
    } else if Less(s[0].key, e.key) {
      InsertOrdered(e, s[1..]);
      var t := InsertEntry(e, s[1..]);
      InsertMembers(e, s[1..]);
      if t != [] {
        assert t[0] in t;
        if t[0] != e {
          var j :| 0 <= j < |s[1..]| && s[1..][j] == t[0];
          assert Less(s[0].key, s[j + 1].key);
        }
      }
      BeforeAll(s[0], t);
    } else {
      assert s[0] in s;
      LessTotal(s[0].key, e.key);
      BeforeAll(e, s);
    }
  }

  ghost predicate DistinctKeys(s: seq<Entry>) {
    forall i, j :: 0 <= i < j < |s| ==> s[i].key != s[j].key
  }

  lemma {:induction false} SortedOrdered(s: seq<Entry>)
    requires DistinctKeys(s)
    ensures Ordered(Sorted(s))
  {
    if s != [] {
      SortedOrdered(s[1..]);
      SortedMembers(s[1..]);
      forall x | x in Sorted(s[1..]) ensures x.key != s[0].key {
        var j :| 0 <= j < |s[1..]| && s[1..][j] == x;
        assert s[j + 1] == x;
      }
      InsertOrdered(s[0], Sorted(s[1..]));
    }
  }

  lemma FirstIsLeast(p: seq<Entry>, e: Entry)
    requires Ordered(p) && e in p
    ensures p != [] && (e == p[0] || Less(p[0].key, e.key))
  {
  }

  lemma TailMembers(p: seq<Entry>, q: seq<Entry>)
    requires Ordered(p) && Ordered(q) && p != [] && q != [] && p[0] == q[0] && forall e :: e in p <==> e in q
    ensures forall e :: e in p[1..] <==> e in q[1..]
  {
    forall e ensures (e in p[1..] <==> e in p && e != p[0]) && (e in q[1..] <==> e in q && e != q[0]) {
      NotAgain(p, e);
      NotAgain(q, e);
    }
  }

  lemma NotAgain(p: seq<Entry>, e: Entry)
    requires Ordered(p) && p != []
    ensures e in p[1..] <==> e in p && e != p[0]
  {
    assert p == [p[0]] + p[1..];
    LessTotal(p[0].key, p[0].key);
    if e in p[1..] {
      var j :| 0 <= j < |p[1..]| && p[1..][j] == e;
      assert Less(p[0].key, p[j + 1].key);
    }
  }

  /** Two ordered lists with the same entries are the same list. */
  lemma {:induction false} OrderedUnique(p: seq<Entry>, q: seq<Entry>)
    requires Ordered(p) && Ordered(q) && forall e :: e in p <==> e in q
    ensures p == q
  {
    if p == [] {
      if q != [] {
        SomeEntry(q, p);
      }
    } else if q == [] {
      SomeEntry(p, q);
    } else {
      assert p[0] in p && q[0] in q;
      FirstIsLeast(q, p[0]);
      FirstIsLeast(p, q[0]);
      LessTotal(p[0].key, q[0].key);
      TailMembers(p, q);
      OrderedUnique(p[1..], q[1..]);
      assert p == [p[0]] + p[1..] && q == [q[0]] + q[1..];
    }
  }

  lemma SomeEntry(p: seq<Entry>, q: seq<Entry>)
    requires p != [] && forall e :: e in p ==> e in q
    ensures q != []
  {
    assert p[0] in p;
  }
}
