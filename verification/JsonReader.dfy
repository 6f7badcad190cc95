/** A reader of JSON texts without white space (RFC 8259), against which the canonical print of
    packages/integrations/src/consent.ts is checked. */
module JsonReader {
  import opened Wrappers
  import opened JsonText
  import opened CanonicalJson
  import CanonicalForm

  predicate Ascii(s: string) {
    forall k :: 0 <= k < |s| ==> s[k] as int < 128
  }

  /** The code units of an ASCII word. */
  function Word(s: string): (t: Text)
    requires Ascii(s)
    ensures |t| == |s| && forall k :: 0 <= k < |s| ==> t[k] == s[k] as int
  {
    seq(|s|, k requires 0 <= k < |s| => s[k] as int)
  }

  predicate StartsWith(t: Text, s: string)
    requires Ascii(s)
  {
    |t| >= |s| && t[..|s|] == Word(s)
  }

  lemma {:induction false} UnquotedShorter(t: Text)
    ensures Unquoted(t).Some? ==> |Unquoted(t).value.1| < |t|
    decreases |t|
  {
    if t != [] && t[0] != QUOTE {
      UnquotedShorter(t[1..]);
      if |t| >= 2 {
        UnquotedShorter(t[2..]);
      }
      if |t| >= 6 {
        UnquotedShorter(t[6..]);
      }
    }
  }

  /** A string literal at the front of the text. */
  function ReadString(t: Text): (r: Option<(Text, Text)>)
    ensures r.Some? ==> |r.value.1| < |t|
  {
    if !StartsWith(t, "\"") then None else
      UnquotedShorter(t[1..]);
      Unquoted(t[1..])
  }

  /** An unsigned number at the front of the text. */
  function ReadDigits(t: Text): (r: Option<(int, Text)>)
    ensures r.Some? ==> |r.value.1| < |t|
  {
    RunFits(t);
    if Run(t) == 0 then None else Some((Value(t[..Run(t)]), t[Run(t)..]))
  }

  lemma {:induction false} RunFits(t: Text)
    ensures Run(t) <= |t|
  {
    if t != [] && IsDigit(t[0]) {
      RunFits(t[1..]);
    }
  }

  /** One value at the front of the text, and what follows it. */
  function ReadValue(t: Text): (r: Option<(Json, Text)>)
    ensures r.Some? ==> |r.value.1| < |t|
    decreases |t|, 0
  {
    if StartsWith(t, "null") then Some((Null, t[4..]))
    else if StartsWith(t, "true") then Some((Bool(true), t[4..]))
    else if StartsWith(t, "false") then Some((Bool(false), t[5..]))
    else if StartsWith(t, "\"") then
      (match ReadString(t) case None => None case Some((s, rest)) => Some((Str(s), rest)))
    else if StartsWith(t, "[]") then Some((Arr([]), t[2..]))
    else if StartsWith(t, "{}") then Some((Obj([]), t[2..]))
    else if StartsWith(t, "[") then
      (match ReadItems(t[1..]) case None => None case Some((items, rest)) => Some((Arr(items), rest)))
    else if StartsWith(t, "{") then
      (match ReadFields(t[1..]) case None => None case Some((fields, rest)) => Some((Obj(fields), rest)))
    else if StartsWith(t, "-") then
      (match ReadDigits(t[1..]) case None => None case Some((n, rest)) => Some((Int(-n), rest)))
    else
      (match ReadDigits(t) case None => None case Some((n, rest)) => Some((Int(n), rest)))
  }

  /** Values between commas up to a closing bracket. */
  function ReadItems(t: Text): (r: Option<(seq<Json>, Text)>)
    ensures r.Some? ==> |r.value.1| < |t|
    decreases |t|, 1
  {
    match ReadValue(t)
    case None => None
    case Some((j, rest)) =>
      if StartsWith(rest, "]") then Some(([j], rest[1..]))
      else if StartsWith(rest, ",") then
        (match ReadItems(rest[1..]) case None => None case Some((more, after)) => Some(([j] + more, after)))
      else None
  }

  /** Fields between commas up to a closing brace. */
  function ReadFields(t: Text): (r: Option<(seq<Field>, Text)>)
    ensures r.Some? ==> |r.value.1| < |t|
    decreases |t|, 1
  {
    match ReadString(t)
    case None => None
    case Some((key, tail)) =>
      if !StartsWith(tail, ":") then None else
        match ReadValue(tail[1..])
        case None => None
        case Some((j, rest)) =>
          if StartsWith(rest, "}") then Some(([Field(key, j)], rest[1..]))
          else if StartsWith(rest, ",") then
            (match ReadFields(rest[1..]) case None => None case Some((more, after)) => Some(([Field(key, j)] + more, after)))
          else None
  }

  // ---------------------------------------------------------------- what the print reads as

  /** A text as it is read: every key after the one before it, and nothing undefined. */
  ghost predicate Tidy(j: Json) {
    match j
    case Undefined => false
    case Arr(items) => forall k :: 0 <= k < |items| ==> Tidy(items[k])
    case Obj(fields) =>
      && (forall k :: 0 <= k < |fields| ==> Tidy(fields[k].value))
      && (forall i, k :: 0 <= i < k < |fields| ==> Less(fields[i].key, fields[k].key))
    case _ => true
  }

  /** Whatever value stops after it, the text reads as this value. */
  ghost predicate ReadsAs(t: Text, v: Json) {
    forall x: Text :: Stop(x) ==> ReadValue(t + x) == Some((v, x))
  }

  lemma Singleton(u: Unit, x: Text, s: string)
    requires |s| == 1 && s[0] as int == u < 128
    ensures StartsWith([u] + x, s) && ([u] + x)[1..] == x
  {
  }

  lemma WordFirst(t: Text, s: string)
    requires s != "" && Ascii(s) && t != [] && t[0] != s[0] as int
    ensures !StartsWith(t, s)
  {
    if |t| >= |s| {
      assert t[..|s|][0] == t[0];
    }
  }

  lemma NullReads(x: Text)
    ensures ReadValue(NULL_TEXT + x) == Some((Null, x))
  {
    var t := NULL_TEXT + x;
    assert t[..4] == Word("null") && t[4..] == x;
  }

  lemma TrueReads(x: Text)
    ensures ReadValue(TRUE_TEXT + x) == Some((Bool(true), x))
  {
    var t := TRUE_TEXT + x;
    assert t[..4] == Word("true") && t[4..] == x;
    WordFirst(t, "null");
  }

  lemma FalseReads(x: Text)
    ensures ReadValue(FALSE_TEXT + x) == Some((Bool(false), x))
  {
    var t := FALSE_TEXT + x;
    assert t[..5] == Word("false") && t[5..] == x;
    WordFirst(t, "null");
    WordFirst(t, "true");
  }

  lemma StringReads(s: Text, x: Text)
    ensures ReadString(Quoted(s) + x) == Some((s, x))
  {
    hide Unquoted, Escaped;
    var t := Quoted(s) + x;
    assert t[1..] == Escaped(s) + ([QUOTE] + x);
    assert t[..1] == Word("\"");
    ReadsBack(s, x);
  }

  lemma StrReads(s: Text, x: Text)
    ensures ReadValue(Quoted(s) + x) == Some((Str(s), x))
  {
    hide Escaped, ReadString;
    var t := Quoted(s) + x;
    assert t[0] == QUOTE && t[..1] == Word("\"");
    WordFirst(t, "null");
    WordFirst(t, "true");
    WordFirst(t, "false");
    StringReads(s, x);
  }

  lemma DigitsRead(n: nat, x: Text)
    requires Stop(x)
    ensures ReadDigits(Digits(n) + x) == Some((n, x))
  {
    hide Digits, Stop;
    var d := Digits(n);
    RunEnds(d, x);
    DigitsValue(n);
    assert (d + x)[..|d|] == d && (d + x)[|d|..] == x;
  }

  /** A number starts none of the other kinds of value. */
  lemma NumberFirst(t: Text)
    requires t != [] && (IsDigit(t[0]) || t[0] == MINUS)
    ensures ReadValue(t) ==
      if t[0] == MINUS then (match ReadDigits(t[1..]) case None => None case Some((n, rest)) => Some((Int(-n), rest)))
      else (match ReadDigits(t) case None => None case Some((n, rest)) => Some((Int(n), rest)))
  {
    hide ReadDigits, ReadString, ReadItems, ReadFields;
    WordFirst(t, "null");
    WordFirst(t, "true");
    WordFirst(t, "false");
    WordFirst(t, "\"");
    WordFirst(t, "[]");
    WordFirst(t, "{}");
    WordFirst(t, "[");
    WordFirst(t, "{");
    if t[0] == MINUS {
      assert t[..1] == Word("-");
    } else {
      WordFirst(t, "-");
    }
  }

  lemma IntReads(n: int, x: Text)
    requires Stop(x)
    ensures ReadValue(Number(n) + x) == Some((Int(n), x))
  {
    hide Digits, ReadDigits, ReadValue, Stop;
    var t := Number(n) + x;
    if n < 0 {
      assert t == [MINUS] + (Digits(-n) + x) && t[1..] == Digits(-n) + x;
      DigitsRead(-n, x);
    } else {
      assert IsDigit(t[0]);
      DigitsRead(n, x);
    }
    NumberFirst(t);
  }

  // ---------------------------------------------------------------- lists and objects

  lemma NotAWord(t: Text)
    requires t != [] && (t[0] == OPEN_LIST || t[0] == OPEN_OBJECT)
    ensures !StartsWith(t, "null") && !StartsWith(t, "true") && !StartsWith(t, "false") && !StartsWith(t, "\"")
  {
    WordFirst(t, "null");
    WordFirst(t, "true");
    WordFirst(t, "false");
    WordFirst(t, "\"");
  }

  lemma TwoUnits(t: Text, s: string)
    requires |s| == 2 && Ascii(s) && |t| >= 2
    ensures StartsWith(t, s) <==> t[0] == s[0] as int && t[1] == s[1] as int
  {
    if t[0] == s[0] as int && t[1] == s[1] as int {
      assert t[..2] == Word(s);
    }
  }

  lemma Shape(open: Unit, body: Text, close: Unit, x: Text)
    requires body != []
    ensures var t := [open] + body + [close] + x; |t| > 2 && t[0] == open && t[1] == body[0] && t[1..] == body + [close] + x
  {
  }

  lemma ListReads(body: Text, x: Text, items: seq<Json>)
    requires body != [] && body[0] != CLOSE_LIST && ReadItems(body + [CLOSE_LIST] + x) == Some((items, x))
    ensures ReadValue([OPEN_LIST] + body + [CLOSE_LIST] + x) == Some((Arr(items), x))
  {
    hide ReadItems, ReadFields, ReadString;
    var t := [OPEN_LIST] + body + [CLOSE_LIST] + x;
    Shape(OPEN_LIST, body, CLOSE_LIST, x);
    NotAWord(t);
    TwoUnits(t, "[]");
    TwoUnits(t, "{}");
    assert t[..1] == Word("[");
  }

  lemma ObjectReads(body: Text, x: Text, fields: seq<Field>)
    requires body != [] && body[0] != CLOSE_OBJECT && ReadFields(body + [CLOSE_OBJECT] + x) == Some((fields, x))
    ensures ReadValue([OPEN_OBJECT] + body + [CLOSE_OBJECT] + x) == Some((Obj(fields), x))
  {
    hide ReadItems, ReadFields, ReadString;
    var t := [OPEN_OBJECT] + body + [CLOSE_OBJECT] + x;
    Shape(OPEN_OBJECT, body, CLOSE_OBJECT, x);
    NotAWord(t);
    TwoUnits(t, "[]");
    TwoUnits(t, "{}");
    WordFirst(t, "[");
    assert t[..1] == Word("{");
  }

  lemma EmptyReads(x: Text)
    ensures ReadValue([OPEN_LIST, CLOSE_LIST] + x) == Some((Arr([]), x))
    ensures ReadValue([OPEN_OBJECT, CLOSE_OBJECT] + x) == Some((Obj([]), x))
  {
    hide ReadItems, ReadFields, ReadString;
    var t, u := [OPEN_LIST, CLOSE_LIST] + x, [OPEN_OBJECT, CLOSE_OBJECT] + x;
    NotAWord(t);
    NotAWord(u);
    TwoUnits(t, "[]");
    TwoUnits(u, "[]");
    TwoUnits(u, "{}");
    assert t[2..] == x && u[2..] == x;
  }

  lemma LastItemReads(s: Text, v: Json, x: Text)
    requires ReadsAs(s, v)
    ensures ReadItems(s + ([CLOSE_LIST] + x)) == Some(([v], x))
  {
    hide ReadValue;
    Singleton(CLOSE_LIST, x, "]");
  }

  lemma NextItemReads(s: Text, v: Json, others: Text, x: Text, more: seq<Json>)
    requires ReadsAs(s, v) && ReadItems(others) == Some((more, x))
    ensures ReadItems(s + ([COMMA] + others)) == Some(([v] + more, x))
  {
    hide ReadValue;
    Singleton(COMMA, others, ",");
    WordFirst([COMMA] + others, "]");
  }

  lemma FieldReads(e: Entry, v: Json, tail: Text)
    requires ReadsAs(e.text, v) && Stop(tail)
    ensures var t := Printed(e) + tail;
      && ReadString(t).Some? && ReadString(t).value.0 == e.key && StartsWith(ReadString(t).value.1, ":")
      && ReadValue(ReadString(t).value.1[1..]) == Some((v, tail))
  {
    hide ReadString, ReadValue, Quoted, Stop;
    var t := Printed(e) + tail;
    assert t == Quoted(e.key) + ([COLON] + (e.text + tail));
    StringReads(e.key, [COLON] + (e.text + tail));
    Singleton(COLON, e.text + tail, ":");
  }

  lemma LastFieldReads(e: Entry, v: Json, x: Text)
    requires ReadsAs(e.text, v)
    ensures ReadFields(Printed(e) + ([CLOSE_OBJECT] + x)) == Some(([Field(e.key, v)], x))
  {
    hide ReadString, ReadValue, Printed, ReadsAs;
    FieldReads(e, v, [CLOSE_OBJECT] + x);
    Singleton(CLOSE_OBJECT, x, "}");
  }

  lemma NextFieldReads(e: Entry, v: Json, others: Text, x: Text, more: seq<Field>)
    requires ReadsAs(e.text, v) && ReadFields(others) == Some((more, x))
    ensures ReadFields(Printed(e) + ([COMMA] + others)) == Some(([Field(e.key, v)] + more, x))
  {
    hide ReadString, ReadValue, Printed, ReadsAs;
    FieldReads(e, v, [COMMA] + others);
    Singleton(COMMA, others, ",");
    WordFirst([COMMA] + others, "}");
  }

  ghost predicate AllRead(texts: seq<Text>, vs: seq<Json>) {
    |texts| == |vs| && forall k :: 0 <= k < |vs| ==> ReadsAs(texts[k], vs[k])
  }

  ghost predicate PrintsRead(items: seq<Json>, vs: seq<Json>) {
    |items| == |vs| && forall k :: 0 <= k < |vs| ==> ReadsAs(Canonical(items[k]), vs[k])
  }

  lemma {:induction false} ItemsRead(items: seq<Json>, vs: seq<Json>, x: Text)
    requires items != [] && PrintsRead(items, vs)
    ensures ReadItems(JoinItems(items) + [CLOSE_LIST] + x) == Some((vs, x))
  {
    hide Canonical, ReadItems, ReadsAs, JoinItems;
    CanonicalForm.ItemsFirst(items, x);
    if |items| == 1 {
      LastItemReads(Canonical(items[0]), vs[0], x);
      assert vs == [vs[0]];
    } else {
      assert forall k :: 0 <= k < |vs| - 1 ==> items[1..][k] == items[k + 1] && vs[1..][k] == vs[k + 1];
      ItemsRead(items[1..], vs[1..], x);
      var others := JoinItems(items[1..]) + [CLOSE_LIST] + x;
      NextItemReads(Canonical(items[0]), vs[0], others, x, vs[1..]);
      assert [COMMA] + JoinItems(items[1..]) + [CLOSE_LIST] + x == [COMMA] + others;
      assert vs == [vs[0]] + vs[1..];
    }
  }

  ghost predicate EntriesRead(p: seq<Entry>, fields: seq<Field>) {
    |p| == |fields| && forall k :: 0 <= k < |p| ==> p[k].key == fields[k].key && ReadsAs(p[k].text, fields[k].value)
  }

  lemma JoinSplit(p: seq<Entry>, x: Text)
    requires p != []
    ensures JoinEntries(p) + [CLOSE_OBJECT] + x ==
      if |p| == 1 then Printed(p[0]) + ([CLOSE_OBJECT] + x)
      else Printed(p[0]) + ([COMMA] + (JoinEntries(p[1..]) + [CLOSE_OBJECT] + x))
  {
    hide Printed, JoinEntries;
    JoinEntriesFirst(p);
    if |p| == 1 {
      Regroup(Printed(p[0]), CLOSE_OBJECT, x);
    } else {
      var first, others := Printed(p[0]), JoinEntries(p[1..]);
      RegroupAll(first, COMMA, others, CLOSE_OBJECT, x);
    }
  }

  lemma JoinEntriesFirst(p: seq<Entry>)
    requires p != []
    ensures JoinEntries(p) == if |p| == 1 then Printed(p[0]) else Printed(p[0]) + [COMMA] + JoinEntries(p[1..])
  {
    hide Printed;
  }

  lemma Regroup(first: Text, c: Unit, x: Text)
    ensures first + [c] + x == first + ([c] + x)
  {
  }

  lemma RegroupAll(first: Text, c: Unit, others: Text, d: Unit, x: Text)
    ensures first + [c] + others + [d] + x == first + ([c] + (others + [d] + x))
  {
  }

  lemma {:induction false} FieldsRead(p: seq<Entry>, fields: seq<Field>, x: Text)
    requires p != [] && EntriesRead(p, fields)
    ensures ReadFields(JoinEntries(p) + [CLOSE_OBJECT] + x) == Some((fields, x))
  {
    hide ReadFields, ReadsAs, JoinEntries, Printed;
    JoinSplit(p, x);
    assert fields[0] == Field(p[0].key, fields[0].value);
    if |p| == 1 {
      LastFieldReads(p[0], fields[0].value, x);
      assert fields == [fields[0]];
    } else {
      assert forall k :: 0 <= k < |p| - 1 ==> p[1..][k] == p[k + 1] && fields[1..][k] == fields[k + 1];
      FieldsRead(p[1..], fields[1..], x);
      NextFieldReads(p[0], fields[0].value, JoinEntries(p[1..]) + [CLOSE_OBJECT] + x, x, fields[1..]);
      assert fields == [fields[0]] + fields[1..];
    }
  }

  lemma ItemsStart(items: seq<Json>)
    requires items != []
    ensures JoinItems(items) != [] && JoinItems(items)[0] != CLOSE_LIST
  {
    hide Canonical;
    FirstUnit(items[0]);
  }

  lemma EntriesStart(p: seq<Entry>)
    requires p != []
    ensures JoinEntries(p) != [] && JoinEntries(p)[0] == QUOTE
  {
    hide Escaped;
  }

  // ---------------------------------------------------------------- every print reads back

  lemma ArrReads(items: seq<Json>, vs: seq<Json>)
    requires PrintsRead(items, vs)
    ensures ReadsAs(Canonical(Arr(items)), Arr(vs))
  {
    hide ReadValue, ReadItems, ReadsAs;
    forall x: Text | Stop(x) ensures ReadValue(Canonical(Arr(items)) + x) == Some((Arr(vs), x)) {
      if items == [] {
        EmptyReads(x);
        assert Canonical(Arr(items)) + x == [OPEN_LIST, CLOSE_LIST] + x;
      } else {
        ItemsStart(items);
        ItemsRead(items, vs, x);
        ListReads(JoinItems(items), x, vs);
      }
    }
    ReadsAsIntro(Canonical(Arr(items)), Arr(vs));
  }

  lemma ReadsAsIntro(t: Text, v: Json)
    requires forall x: Text :: Stop(x) ==> ReadValue(t + x) == Some((v, x))
    ensures ReadsAs(t, v)
  {
    hide ReadValue;
  }

  lemma ObjReads(fields: seq<Field>, vs: seq<Field>)
    requires EntriesRead(Sorted(Entries(fields)), vs)
    ensures ReadsAs(Canonical(Obj(fields)), Obj(vs))
  {
    hide ReadValue, ReadFields, ReadsAs, Sorted, Entries;
    var p := Sorted(Entries(fields));
    forall x: Text | Stop(x) ensures ReadValue(Canonical(Obj(fields)) + x) == Some((Obj(vs), x)) {
      if p == [] {
        EmptyReads(x);
        assert Canonical(Obj(fields)) + x == [OPEN_OBJECT, CLOSE_OBJECT] + x;
      } else {
        EntriesStart(p);
        FieldsRead(p, vs, x);
        ObjectReads(JoinEntries(p), x, vs);
      }
    }
    ReadsAsIntro(Canonical(Obj(fields)), Obj(vs));
  }

  /** What a value reads back as: the same value, tidied. */
  ghost predicate Tidied(j: Json, v: Json) {
    Same(j, v) && Tidy(v) && ReadsAs(Canonical(j), v)
  }

  lemma TidiedIntro(j: Json, v: Json)
    requires Same(j, v) && Tidy(v) && forall x: Text :: Stop(x) ==> ReadValue(Canonical(j) + x) == Some((v, x))
    ensures Tidied(j, v)
  {
    hide ReadValue, Canonical, Same, Tidy;
  }

  lemma ScalarReads(j: Json) returns (v: Json)
    requires !j.Arr? && !j.Obj?
    ensures Tidied(j, v)
  {
    hide ReadValue, Number, Quoted;
    v := if j.Undefined? then Null else j;
    forall x: Text | Stop(x) ensures ReadValue(Canonical(j) + x) == Some((v, x)) {
      match j
      case Undefined => NullReads(x);
      case Null => NullReads(x);
      case Bool(b) =>
        if b {
          TrueReads(x);
        } else {
          FalseReads(x);
        }
      case Int(n) => IntReads(n, x);
      case Str(s) => StrReads(s, x);
    }
    ReadsAsIntro(Canonical(j), v);
  }

  lemma {:induction false} ItemsTidied(items: seq<Json>) returns (vs: seq<Json>)
    requires CanonicalForm.PlainAll(items)
    ensures |vs| == |items| && forall k :: 0 <= k < |items| ==> Tidied(items[k], vs[k])
    decreases items
  {
    hide Tidied, Plain;
    vs := [];
    if items != [] {
      var v := PrintReadsBack(items[0]);
      TidiedIntro(items[0], v);
      var rest := ItemsTidied(items[1..]);
      vs := [v] + rest;
      assert forall k :: 0 < k < |items| ==> items[k] == items[1..][k - 1];
    }
  }

  /** Field `i` printed entry `e`, which reads as this field. */
  ghost predicate FieldTidied(fields: seq<Field>, e: Entry, f: Field) {
    exists i :: 0 <= i < |fields| && CanonicalForm.EntryOf(fields, i, e) && f.key == e.key && Tidied(fields[i].value, f.value)
  }

  lemma {:induction false} EntriesTidied(fields: seq<Field>, p: seq<Entry>) returns (vs: seq<Field>)
    requires CanonicalForm.PlainFields(fields) && forall e :: e in p ==> e in Entries(fields)
    ensures |vs| == |p| && forall k :: 0 <= k < |p| ==> FieldTidied(fields, p[k], vs[k])
    decreases fields, 0, |p|
  {
    hide Tidied, Plain, Entries, Canonical;
    vs := [];
    if p != [] {
      assert p[0] in p;
      var i := CanonicalForm.EntryHasField(fields, p[0]);
      var v := PrintReadsBack(fields[i].value);
      TidiedIntro(fields[i].value, v);
      assert FieldTidied(fields, p[0], Field(p[0].key, v));
      var rest := EntriesTidied(fields, p[1..]);
      vs := [Field(p[0].key, v)] + rest;
      assert forall k :: 0 < k < |p| ==> p[k] == p[1..][k - 1];
    }
  }

  lemma FieldsAreRead(fields: seq<Field>, p: seq<Entry>, vs: seq<Field>)
    requires |vs| == |p| && forall k :: 0 <= k < |p| ==> FieldTidied(fields, p[k], vs[k])
    ensures EntriesRead(p, vs)
  {
    hide Same, Tidy, ReadsAs, Canonical;
    forall k | 0 <= k < |p| ensures p[k].key == vs[k].key && ReadsAs(p[k].text, vs[k].value) {
      assert FieldTidied(fields, p[k], vs[k]);
    }
  }

  lemma FieldsAreTidy(fields: seq<Field>, p: seq<Entry>, vs: seq<Field>)
    requires Ordered(p) && |vs| == |p| && forall k :: 0 <= k < |p| ==> FieldTidied(fields, p[k], vs[k])
    ensures Tidy(Obj(vs))
  {
    hide Same, ReadsAs, Canonical;
    forall k | 0 <= k < |p| ensures p[k].key == vs[k].key && Tidy(vs[k].value) {
      assert FieldTidied(fields, p[k], vs[k]);
    }
  }

  lemma FieldsAreSame(fields: seq<Field>, vs: seq<Field>)
    requires CanonicalForm.UniqueKeys(fields)
    requires var p := Sorted(Entries(fields)); |vs| == |p| && forall k :: 0 <= k < |p| ==> FieldTidied(fields, p[k], vs[k])
    ensures Same(Obj(fields), Obj(vs))
  {
    hide Canonical, Sorted, Entries, ReadsAs;
    var p := Sorted(Entries(fields));
    SortedMembers(Entries(fields));
    forall i | 0 <= i < |fields| && Present(fields[i]) ensures HasPartner(fields, i, vs) {
      CanonicalForm.FieldHasEntry(fields, i);
      var e := Entry(fields[i].key, Canonical(fields[i].value));
      var k :| 0 <= k < |p| && p[k] == e;
      PartnerRead(fields, i, p[k], vs[k]);
    }
    forall key | HasKey(vs, key) ensures HasKey(fields, key) {
      var k :| 0 <= k < |vs| && Present(vs[k]) && vs[k].key == key;
      assert FieldTidied(fields, p[k], vs[k]);
    }
  }

  lemma PartnerRead(fields: seq<Field>, i: nat, e: Entry, f: Field)
    requires CanonicalForm.UniqueKeys(fields) && i < |fields| && e.key == fields[i].key && FieldTidied(fields, e, f)
    ensures Present(f) && f.key == fields[i].key && Same(fields[i].value, f.value)
  {
    hide Canonical, Same, ReadsAs;
    var k :| 0 <= k < |fields| && CanonicalForm.EntryOf(fields, k, e) && f.key == e.key && Tidied(fields[k].value, f.value);
    assert k == i;
  }

  /** The canonical print is a JSON text of the value: whatever may follow it, it reads back as the value up to
      the order of keys, its keys ascending and nothing undefined in it. */
  lemma {:induction false} PrintReadsBack(j: Json) returns (v: Json)
    requires Plain(j)
    ensures Same(j, v) && Tidy(v)
    ensures forall x: Text :: Stop(x) ==> ReadValue(Canonical(j) + x) == Some((v, x))
    decreases j, 1
  {
    hide ReadValue, Canonical, Sorted, Entries;
    match j
    case Arr(items) =>
      var vs := ItemsTidied(items);
      v := Arr(vs);
      ArrReads(items, vs);
    case Obj(fields) =>
      var p := Sorted(Entries(fields));
      SortedMembers(Entries(fields));
      CanonicalForm.EntriesDistinct(fields);
      SortedOrdered(Entries(fields));
      var vs := EntriesTidied(fields, p);
      v := Obj(vs);
      FieldsAreRead(fields, p, vs);
      ObjReads(fields, vs);
      FieldsAreTidy(fields, p, vs);
      FieldsAreSame(fields, vs);
    case _ => v := ScalarReads(j);
  }
}
