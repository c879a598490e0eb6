/** The parameter string codec: a map kept sorted by key, a printer "k=v;k=v" and a pointer-scanning
    parser for it, typed setters and getters over the map, and the size-list parser. */
module CameraParameterCodec {
  import opened CStrings

  datatype Entry = Entry(key: string, value: string)

  /** mMap: a vector of entries kept sorted by key. */
  type Entries = seq<Entry>

  datatype Size = Size(width: int, height: int)

  // ---------- the sorted map ----------

  /** Strict order of String8: character by character, a proper prefix first. */
  predicate Before(a: string, b: string) {
    b != [] && (a == [] || a[0] < b[0] || (a[0] == b[0] && Before(a[1..], b[1..])))
  }

  lemma {:induction false} BeforeIsStrict(a: string, b: string)
    ensures !(Before(a, b) && Before(b, a)) && (Before(a, b) ==> a != b)
    ensures a == b || Before(a, b) || Before(b, a)
  {
    if a != [] && b != [] && a[0] == b[0] {
      BeforeIsStrict(a[1..], b[1..]);
      assert a == [a[0]] + a[1..] && b == [b[0]] + b[1..];
    }
  }

  lemma {:induction false} BeforeIsTransitive(a: string, b: string, c: string)
    requires Before(a, b) && Before(b, c)
    ensures Before(a, c)
  {
    if a != [] && a[0] == b[0] == c[0] {
      BeforeIsTransitive(a[1..], b[1..], c[1..]);
    }
  }

  /** The order of the map is the lexicographic one: the texts agree up to some place, where the first
      ends and the second goes on, or has the smaller character. */
  lemma {:induction false} BeforeIsLexicographic(a: string, b: string)
    ensures Before(a, b) <==>
            exists i :: 0 <= i <= |a| && i < |b| && a[..i] == b[..i] && (i == |a| || a[i] < b[i])
  {
    if b == [] {
    } else if a == [] {
      assert a[..0] == b[..0];
    } else if a[0] != b[0] {
      assert a[..0] == b[..0];
      forall i | 0 < i <= |a| && i < |b| ensures a[..i] != b[..i] {
        assert a[..i][0] != b[..i][0];
      }
    } else {
      BeforeIsLexicographic(a[1..], b[1..]);
      if Before(a, b) {
        var i :| 0 <= i <= |a[1..]| && i < |b[1..]| && a[1..][..i] == b[1..][..i] && (i == |a[1..]| || a[1..][i] < b[1..][i]);
        assert a[..i + 1] == [a[0]] + a[1..][..i] && b[..i + 1] == [b[0]] + b[1..][..i];
      }
      if i :| 0 <= i <= |a| && i < |b| && a[..i] == b[..i] && (i == |a| || a[i] < b[i]) {
        assert i > 0;
        assert a[1..][..i - 1] == a[..i][1..] && b[1..][..i - 1] == b[..i][1..];
      }
    }
  }

  predicate Sorted(m: Entries) {
    forall i, j :: 0 <= i < j < |m| ==> Before(m[i].key, m[j].key)
  }

  /** add and replaceValueFor: replace the value of a key that is there, else insert in order. */
  function Insert(m: Entries, key: string, value: string): Entries {
    if m == [] then [Entry(key, value)]
    else if m[0].key == key then [Entry(key, value)] + m[1..]
    else if Before(key, m[0].key) then [Entry(key, value)] + m
    else [m[0]] + Insert(m[1..], key, value)
  }

  /** removeItem */
  function Remove(m: Entries, key: string): Entries {
    if m == [] then [] else if m[0].key == key then m[1..] else [m[0]] + Remove(m[1..], key)
  }

  /** valueFor: the default value of the map is the empty string. */
  function ValueFor(m: Entries, key: string): string {
    if m == [] then "" else if m[0].key == key then m[0].value else ValueFor(m[1..], key)
  }

  /** Keys are free of '=' and values of ';', and both are C strings. */
  predicate CleanEntry(e: Entry) {
    Lacks(e.key, '=') && Lacks(e.value, ';') && Lacks(e.key, NUL) && Lacks(e.value, NUL)
  }

  predicate Clean(m: Entries) {
    Sorted(m) && forall i :: 0 <= i < |m| ==> CleanEntry(m[i])
  }

  lemma {:induction false} InsertMembers(m: Entries, key: string, value: string)
    ensures forall e :: e in Insert(m, key, value) ==> e == Entry(key, value) || e in m
  {
    if m != [] && m[0].key != key && !Before(key, m[0].key) {
      InsertMembers(m[1..], key, value);
    }
  }

  lemma PrependSorted(e: Entry, m: Entries)
    requires Sorted(m) && forall x :: x in m ==> Before(e.key, x.key)
    ensures Sorted([e] + m)
  {
  }

  lemma {:induction false} InsertKeepsSorted(m: Entries, key: string, value: string)
    requires Sorted(m)
    ensures Sorted(Insert(m, key, value))
  {
    if m != [] {
      BeforeIsStrict(key, m[0].key);
      if m[0].key == key {
        PrependSorted(Entry(key, value), m[1..]);
      } else if Before(key, m[0].key) {
        forall x | x in m ensures Before(key, x.key) {
          if x != m[0] {
            BeforeIsTransitive(key, m[0].key, x.key);
          }
        }
        PrependSorted(Entry(key, value), m);
      } else {
        InsertKeepsSorted(m[1..], key, value);
        InsertMembers(m[1..], key, value);
        PrependSorted(m[0], Insert(m[1..], key, value));
      }
    }
  }

  lemma InsertKeepsClean(m: Entries, key: string, value: string)
    requires Clean(m) && CleanEntry(Entry(key, value))
    ensures Clean(Insert(m, key, value))
  {
    InsertKeepsSorted(m, key, value);
    InsertMembers(m, key, value);
    var t := Insert(m, key, value);
    forall i | 0 <= i < |t| ensures CleanEntry(t[i]) {
      assert t[i] in t;
    }
  }

  /** After a write the map holds the entry written, and every entry it held under another key. */
  lemma {:induction false} InsertReplaces(m: Entries, key: string, value: string)
    requires Sorted(m)
    ensures forall e :: e in Insert(m, key, value) <==> e == Entry(key, value) || (e in m && e.key != key)
  {
    if m != [] {
      assert m == [m[0]] + m[1..];
      BeforeIsStrict(key, m[0].key);
      forall x | x in m[1..] ensures x.key != m[0].key && (Before(key, m[0].key) ==> x.key != key) {
        BeforeIsStrict(m[0].key, x.key);
        if Before(key, m[0].key) {
          BeforeIsTransitive(key, m[0].key, x.key);
          BeforeIsStrict(key, x.key);
        }
      }
      if m[0].key != key && !Before(key, m[0].key) {
        InsertReplaces(m[1..], key, value);
      }
    }
  }

  /** Looking a key up finds its entry, or the empty string when there is none. */
  lemma {:induction false} ValueIsEntry(m: Entries, key: string)
    requires Sorted(m)
    ensures forall e :: e in m && e.key == key ==> ValueFor(m, key) == e.value
    ensures (forall e :: e in m ==> e.key != key) ==> ValueFor(m, key) == ""
  {
    if m != [] {
      assert m == [m[0]] + m[1..];
      forall x | x in m[1..] ensures x.key != m[0].key {
        BeforeIsStrict(m[0].key, x.key);
      }
      ValueIsEntry(m[1..], key);
    }
  }

  /** A key after all others goes to the end. */
  lemma {:induction false} InsertLast(m: Entries, key: string, value: string)
    requires forall i :: 0 <= i < |m| ==> Before(m[i].key, key)
    ensures Insert(m, key, value) == m + [Entry(key, value)]
  {
    if m != [] {
      BeforeIsStrict(m[0].key, key);
      InsertLast(m[1..], key, value);
    }
  }

  lemma {:induction false} RemoveMembers(m: Entries, key: string)
    requires Sorted(m)
    ensures Sorted(Remove(m, key)) && forall e :: e in Remove(m, key) <==> e in m && e.key != key
  {
    if m != [] {
      var rest := m[1..];
      forall x | x in rest ensures x.key != m[0].key {
        BeforeIsStrict(m[0].key, x.key);
      }
      if m[0].key != key {
        RemoveMembers(rest, key);
        PrependSorted(m[0], Remove(rest, key));
      }
    }
  }

  /** Reading after a write: the new value under the key written, the old one elsewhere. */
  lemma {:induction false} ValueAfterInsert(m: Entries, key: string, value: string, other: string)
    requires Sorted(m)
    ensures ValueFor(Insert(m, key, value), other) == if other == key then value else ValueFor(m, other)
  {
    if m != [] && m[0].key != key {
      if Before(key, m[0].key) {
        BeforeIsStrict(key, m[0].key);
      } else {
        ValueAfterInsert(m[1..], key, value, other);
      }
    }
  }

  /** Reading after a removal: nothing under the key removed, the old value elsewhere. */
  lemma {:induction false} ValueAfterRemove(m: Entries, key: string, other: string)
    requires Sorted(m)
    ensures ValueFor(Remove(m, key), other) == if other == key then "" else ValueFor(m, other)
  {
    if m != [] {
      if m[0].key == key {
        NoValueBelow(m[1..], key);
      } else {
        ValueAfterRemove(m[1..], key, other);
      }
    }
  }

  lemma {:induction false} NoValueBelow(m: Entries, key: string)
    requires forall i :: 0 <= i < |m| ==> Before(key, m[i].key)
    ensures ValueFor(m, key) == ""
  {
    if m != [] {
      BeforeIsStrict(key, m[0].key);
      NoValueBelow(m[1..], key);
    }
  }

  // ---------- printing and parsing the map ----------

  function Item(e: Entry): string { e.key + "=" + e.value }

  function Flattened(m: Entries): string {
    if m == [] then "" else if |m| == 1 then Item(m[0]) else Item(m[0]) + ";" + Flattened(m[1..])
  }

  /** Each further entry is printed behind a ';', its key and value apart by '='. */
  lemma {:induction false} FlattenedSnoc(m: Entries, key: string, value: string)
    ensures Flattened(m + [Entry(key, value)])
         == if m == [] then key + "=" + value else Flattened(m) + ";" + key + "=" + value
  {
    var e := Entry(key, value);
    if m == [] {
      assert m + [e] == [e];
    } else {
      assert (m + [e])[1..] == m[1..] + [e];
      FlattenedSnoc(m[1..], key, value);
      if |m| > 1 {
        assert Flattened(m) == Item(m[0]) + ";" + Flattened(m[1..]);
        assert Flattened(m + [e]) == Item(m[0]) + ";" + (Flattened(m[1..]) + ";" + key + "=" + value);
      }
    }
  }

  /** The parser from some point of the text on, with the entries found so far. */
  function ParseFrom(s: string, m: Entries): Entries
    decreases |s|
  {
    var e := IndexOf(s, '=');
    if e == |s| then m
    else
      var rest := s[e + 1..];
      var c := IndexOf(rest, ';');
      if c == |rest| then Insert(m, s[..e], rest)
      else ParseFrom(rest[c + 1..], Insert(m, s[..e], rest[..c]))
  }

  /** unflatten: the text ends at its first NUL. */
  function Unflattened(params: string): Entries {
    ParseFrom(CStr(params), [])
  }

  lemma ParseUnfold(t: string, m: Entries)
    ensures var e := IndexOf(t, '=');
            ParseFrom(t, m) ==
            if e == |t| then m
            else
              var c := IndexOf(t[e + 1..], ';');
              if c == |t[e + 1..]| then Insert(m, t[..e], t[e + 1..])
              else ParseFrom(t[e + 1..][c + 1..], Insert(m, t[..e], t[e + 1..][..c]))
  {
    hide Insert, IndexOf;
  }

  lemma {:induction false} ParseKeepsClean(s: string, m: Entries)
    requires Clean(m) && Lacks(s, NUL)
    ensures Clean(ParseFrom(s, m))
    decreases |s|
  {
    hide Insert, ParseFrom, Clean, IndexOf;
    ParseUnfold(s, m);
    var e := IndexOf(s, '=');
    if e < |s| {
      var rest := s[e + 1..];
      var c := IndexOf(rest, ';');
      assert CleanEntry(Entry(s[..e], rest[..c]));
      InsertKeepsClean(m, s[..e], rest[..c]);
      if c < |rest| {
        ParseKeepsClean(rest[c + 1..], Insert(m, s[..e], rest[..c]));
      } else {
        assert rest[..c] == rest;
      }
    }
  }

  lemma UnflattenedIsClean(params: string)
    ensures Clean(Unflattened(params))
  {
    ParseKeepsClean(CStr(params), []);
  }

  lemma {:induction false} FlattenedIsNulFree(m: Entries)
    requires forall i :: 0 <= i < |m| ==> CleanEntry(m[i])
    ensures Lacks(Flattened(m), NUL)
  {
    if m != [] {
      FlattenedIsNulFree(m[1..]);
    }
  }

  /** The parser takes one printed item, and what follows its ';' if anything does. */
  lemma ParseItem(e: Entry, tail: string, m: Entries)
    requires CleanEntry(e) && (tail != [] ==> tail[0] == ';')
    ensures ParseFrom(Item(e) + tail, m)
         == if tail == [] then Insert(m, e.key, e.value) else ParseFrom(tail[1..], Insert(m, e.key, e.value))
  {
    ParseUpTo(e.key, e.value, tail, m);
  }

  /** What the parser makes of any text, at any point: without '=' nothing more; up to the first '=' a key,
      which may hold ';', and up to the next ';' its value, which may hold '='; a later entry replaces
      an earlier one of the same key. */
  lemma ParseTakesItem(key: string, value: string, rest: string, m: Entries)
    requires forall i :: 0 <= i < |key| ==> key[i] != '='
    requires forall i :: 0 <= i < |value| ==> value[i] != ';'
    ensures ParseFrom(key, m) == m
    ensures ParseFrom(key + "=" + value, m) == Insert(m, key, value)
    ensures ParseFrom(key + "=" + value + ";" + rest, m) == ParseFrom(rest, Insert(m, key, value))
  {
    hide Insert;
    IndexOfIs(key, '=', |key|);
    ParseUpTo(key, value, "", m);
    assert key + "=" + value + "" == key + "=" + value;
    ParseUpTo(key, value, ";" + rest, m);
    assert key + "=" + value + (";" + rest) == key + "=" + value + ";" + rest;
    assert (";" + rest)[1..] == rest;
  }

  lemma ParseUpTo(key: string, value: string, tail: string, m: Entries)
    requires Lacks(key, '=') && Lacks(value, ';') && (tail != [] ==> tail[0] == ';')
    ensures ParseFrom(key + "=" + value + tail, m)
         == if tail == [] then Insert(m, key, value) else ParseFrom(tail[1..], Insert(m, key, value))
  {
    hide Insert, ParseFrom, IndexOf;
    var s, k := key + "=" + value + tail, |key|;
    assert s[..k] == key && s[k] == '=';
    IndexOfIs(s, '=', k);
    ParseUnfold(s, m);
    var rest := s[k + 1..];
    assert rest == value + tail;
    IndexOfIs(rest, ';', |value|);
    if tail == [] {
      assert rest == value;
    } else {
      assert rest[..|value|] == value && rest[|value| + 1..] == tail[1..];
    }
  }

  lemma {:induction false} ParseInvertsFlatten(front: Entries, m: Entries)
    requires Clean(front + m)
    ensures ParseFrom(Flattened(m), front) == front + m
    decreases |m|
  {
    if m != [] {
      var all, e := front + m, m[0];
      assert all[|front|] == e;
      forall i | 0 <= i < |front| ensures Before(front[i].key, e.key) {
        assert all[i] == front[i];
      }
      InsertLast(front, e.key, e.value);
      assert front + m == front + [e] + m[1..];
      if |m| == 1 {
        ParseItem(e, "", front);
        assert Item(e) + "" == Item(e);
      } else {
        var tail := ";" + Flattened(m[1..]);
        ParseItem(e, tail, front);
        assert Flattened(m) == Item(e) + tail && tail[1..] == Flattened(m[1..]);
        ParseInvertsFlatten(front + [e], m[1..]);
      }
    }
  }

  /** Flattening and parsing back gives the same map exactly when it is sorted, no key holds '='
      and no value holds ';', and all its strings are C strings. */
  lemma RoundTripIff(m: Entries)
    ensures Unflattened(Flattened(m)) == m <==> Clean(m)
  {
    UnflattenedIsClean(Flattened(m));
    if Clean(m) {
      FlattenedIsNulFree(m);
      CStrOfNulFree(Flattened(m));
      assert [] + m == m;
      ParseInvertsFlatten([], m);
    }
  }

  /** unflatten makes keys that hold ';' and values that hold '=', which set would refuse. */
  lemma KeyMayHoldSemicolon()
    ensures Unflattened("a;b=c=d") == [Entry("a;b", "c=d")]
  {
    var s, rest := "a;b=c=d", "c=d";
    CStrOfNulFree(s);
    IndexOfIs(s, '=', 3);
    IndexOfIs(rest, ';', 3);
    assert s[..3] == "a;b" && s[4..] == rest;
  }

  /** Printing what was parsed from any text is a normal form. */
  lemma FlattenIsNormalForm(params: string)
    ensures var once := Flattened(Unflattened(params)); Flattened(Unflattened(once)) == once
  {
    UnflattenedIsClean(params);
    RoundTripIff(Unflattened(params));
  }

  // ---------- maps reachable through the interface ----------

  datatype Operation =
    | SetOp(key: string, value: string)
    | RemoveOp(key: string)
    | UnflattenOp(params: string)

  predicate Acceptable(s: string) { Lacks(s, '=') && Lacks(s, ';') }

  /** set: a key or value with '=' or ';' leaves the map as it is. */
  function SetValue(m: Entries, key: string, value: string): Entries {
    if Acceptable(CStr(key)) && Acceptable(CStr(value)) then Insert(m, CStr(key), CStr(value)) else m
  }

  /** set, spelled out: a C string of a key and one of a value without '=' and ';' are stored as they are,
      whatever else they hold, and every other entry stays; otherwise nothing changes. */
  lemma SetStores(m: Entries, key: string, value: string)
    requires Sorted(m)
    ensures ('=' !in CStr(key) && ';' !in CStr(key) && '=' !in CStr(value) && ';' !in CStr(value)) ==>
              forall e :: e in SetValue(m, key, value)
                          <==> e == Entry(CStr(key), CStr(value)) || (e in m && e.key != CStr(key))
    ensures '=' in CStr(key) || ';' in CStr(key) || '=' in CStr(value) || ';' in CStr(value) ==>
              SetValue(m, key, value) == m
    ensures (forall c :: c in key + value ==> c != '\0' && c != '=' && c != ';') ==>
              && ValueFor(SetValue(m, key, value), key) == value
              && forall other :: other != key ==> ValueFor(SetValue(m, key, value), other) == ValueFor(m, other)
  {
    InsertReplaces(m, CStr(key), CStr(value));
    if forall c :: c in key + value ==> c != '\0' && c != '=' && c != ';' {
      assert forall i :: 0 <= i < |key| ==> key[i] in key + value;
      assert forall i :: 0 <= i < |value| ==> value[i] in key + value;
      CStrOfNulFree(key);
      CStrOfNulFree(value);
      forall other ensures ValueFor(Insert(m, key, value), other) == if other == key then value else ValueFor(m, other) {
        ValueAfterInsert(m, key, value, other);
      }
    }
  }

  function Perform(m: Entries, op: Operation): Entries {
    match op
    case SetOp(key, value) => SetValue(m, key, value)
    case RemoveOp(key) => Remove(m, CStr(key))
    case UnflattenOp(params) => Unflattened(params)
  }

  function PerformAll(m: Entries, ops: seq<Operation>): Entries
    decreases |ops|
  {
    if ops == [] then m else PerformAll(Perform(m, ops[0]), ops[1..])
  }

  lemma PerformKeepsClean(m: Entries, op: Operation)
    requires Clean(m)
    ensures Clean(Perform(m, op))
  {
    match op
    case SetOp(key, value) =>
      if Acceptable(CStr(key)) && Acceptable(CStr(value)) {
        InsertKeepsClean(m, CStr(key), CStr(value));
      }
    case RemoveOp(key) =>
      var t := Remove(m, CStr(key));
      RemoveMembers(m, CStr(key));
      forall i | 0 <= i < |t| ensures CleanEntry(t[i]) {
        assert t[i] in t;
      }
    case UnflattenOp(params) => UnflattenedIsClean(params);
  }

  lemma {:induction false} ReachableIsClean(m: Entries, ops: seq<Operation>)
    requires Clean(m)
    ensures Clean(PerformAll(m, ops))
    decreases |ops|
  {
    if ops != [] {
      PerformKeepsClean(m, ops[0]);
      ReachableIsClean(Perform(m, ops[0]), ops[1..]);
    }
  }

  /** Every map reachable by any sequence of set, remove and unflatten survives the round trip. */
  lemma ReachableRoundTrip(ops: seq<Operation>)
    ensures Unflattened(Flattened(PerformAll([], ops))) == PerformAll([], ops)
  {
    ReachableIsClean([], ops);
    RoundTripIff(PerformAll([], ops));
  }

  /** Reachable maps with the same text are the same map. */
  lemma FlattenIsInjective(ops: seq<Operation>, others: seq<Operation>)
    requires Flattened(PerformAll([], ops)) == Flattened(PerformAll([], others))
    ensures PerformAll([], ops) == PerformAll([], others)
  {
    ReachableRoundTrip(ops);
    ReachableRoundTrip(others);
  }

  // ---------- typed values ----------

  /** get: the empty string counts as absent. */
  function Get(m: Entries, key: string): Option<string> {
    var v := ValueFor(m, CStr(key));
    if v == [] then None else Some(v)
  }

  function GetInt(m: Entries, key: string, abi: Abi): int {
    match Get(m, key)
    case None => -1
    case Some(v) => ToInt32(Strtol(v, 0, abi).value)
  }

  datatype Pair = Pair(first: int, second: int, end: nat)

  /** parse_pair: a number, the delimiter right behind it, another number. */
  function ParsePair(s: string, delim: char, abi: Abi): (r: Option<Pair>)
    requires delim != NUL
    ensures r.Some? ==> r.value.end <= |s|
  {
    var w := Strtol(s, 10, abi);
    if At(s, w.end) != delim then None
    else
      var h := Strtol(s[w.end + 1..], 10, abi);
      Some(Pair(ToInt32(w.value), ToInt32(h.value), w.end + 1 + h.end))
  }

  function PrintSize(z: Size): string { Print(z.width) + "x" + Print(z.height) }

  function GetSize(m: Entries, key: string, abi: Abi): Size {
    match Get(m, key)
    case None => Size(-1, -1)
    case Some(v) =>
      match ParsePair(v, 'x', abi)
      case None => Size(-1, -1)
      case Some(p) => Size(p.first, p.second)
  }

  /** A key without an entry, or with an empty value, reads as -1 and as the size -1 by -1. */
  lemma AbsentReadsMinusOne(m: Entries, key: string, abi: Abi)
    requires Sorted(m) && forall e :: e in m && e.key == CStr(key) ==> e.value == ""
    ensures Get(m, key).None? && GetInt(m, key, abi) == -1 && GetSize(m, key, abi) == Size(-1, -1)
  {
    ValueIsEntry(m, CStr(key));
  }

  /** A key with a value reads as what strtol makes of all of it, as an int; and as a size, as what
      stands on both sides of an 'x' right behind the first number, or -1 by -1 without one. */
  lemma PresentReads(m: Entries, e: Entry, key: string, abi: Abi)
    requires Sorted(m) && e in m && e.key == CStr(key) && e.value != ""
    ensures Get(m, key) == Some(e.value) && GetInt(m, key, abi) == ToInt32(Strtol(e.value, 0, abi).value)
    ensures var w := Strtol(e.value, 10, abi);
            GetSize(m, key, abi) ==
            if w.end < |e.value| && e.value[w.end] == 'x'
            then Size(ToInt32(w.value), ToInt32(Strtol(e.value[w.end + 1..], 10, abi).value))
            else Size(-1, -1)
  {
    hide Strtol;
    ValueIsEntry(m, CStr(key));
  }

  predicate IsSize32(z: Size) { IsInt32(z.width) && IsInt32(z.height) }

  lemma {:induction false} DigitsArePlain(n: nat)
    ensures forall i :: 0 <= i < |Digits(n)| ==> '0' <= Digits(n)[i] <= '9'
  {
    if n >= 10 {
      DigitsArePlain(n / 10);
    }
  }

  /** A printed number or size holds only digits, '-' and 'x'. */
  lemma PrintIsPlain(n: int)
    ensures Print(n) != [] && forall i :: 0 <= i < |Print(n)| ==> Print(n)[i] == '-' || '0' <= Print(n)[i] <= '9'
  {
    DigitsArePlain(if n < 0 then -n else n);
  }

  /** set(key, int) and getInt: every 32-bit value comes back, on either width of long. */
  lemma IntRoundTrip(m: Entries, key: string, n: int, abi: Abi)
    requires Sorted(m) && '=' !in CStr(key) && ';' !in CStr(key) && IsInt32(n)
    ensures GetInt(SetValue(m, key, Print(n)), key, abi) == n
  {
    hide Strtol;
    PrintIsPlain(n);
    CStrOfNulFree(Print(n));
    ValueAfterInsert(m, CStr(key), Print(n), CStr(key));
    PrintParses(n, [], 0, abi);
    assert Print(n) + [] == Print(n);
  }

  lemma PairRoundTrip(z: Size, abi: Abi)
    requires IsSize32(z)
    ensures ParsePair(PrintSize(z), 'x', abi) == Some(Pair(z.width, z.height, |PrintSize(z)|))
  {
    hide Strtol;
    var w, h := Print(z.width), Print(z.height);
    var s := PrintSize(z);
    PrintParses(z.width, "x" + h, 10, abi);
    assert w + ("x" + h) == s && s[|w| + 1..] == h + [];
    PrintParses(z.height, [], 10, abi);
  }

  /** A pair is two numbers with the delimiter between them; without a second number that one is 0, and
      without the delimiter right behind the first number there is no pair. */
  lemma PairNeedsDelimiter(n: int, delim: char, rest: string, abi: Abi)
    requires IsInt32(n) && delim != NUL && DigitValue(delim) >= 10 && (rest != [] ==> DigitValue(rest[0]) >= 10)
    ensures rest == [] || rest[0] != delim ==> ParsePair(Print(n) + rest, delim, abi).None?
    ensures ParsePair(Print(n) + [delim], delim, abi) == Some(Pair(n, 0, |Print(n)| + 1))
  {
    hide Strtol;
    PrintParses(n, rest, 10, abi);
    PrintParses(n, [delim], 10, abi);
    StrtolOfNoNumber("", 10, abi);
    assert (Print(n) + [delim])[|Print(n)| + 1..] == "";
  }

  /** A size is printed with an 'x' in between, and a list of sizes with commas. */
  lemma SizesAsText()
    ensures PrintSize(Size(640, 480)) == "640x480"
    ensures PrintSizes([Size(640, 480), Size(-1, 0)]) == "640x480,-1x0"
  {
    assert Digits(64) == "64" && Digits(640) == "640";
    assert Digits(48) == "48" && Digits(480) == "480";
    assert PrintSize(Size(-1, 0)) == "-1x0";
    assert [Size(640, 480), Size(-1, 0)][1..] == [Size(-1, 0)];
  }

  /** The size setters and getters: every pair of 32-bit values comes back. */
  lemma SizeRoundTrip(m: Entries, key: string, z: Size, abi: Abi)
    requires Sorted(m) && '=' !in CStr(key) && ';' !in CStr(key) && IsSize32(z)
    ensures GetSize(SetValue(m, key, PrintSize(z)), key, abi) == z
  {
    hide ParsePair;
    PrintSizeIsPlain(z);
    CStrOfNulFree(PrintSize(z));
    ValueAfterInsert(m, CStr(key), PrintSize(z), CStr(key));
    PairRoundTrip(z, abi);
  }

  // ---------- size lists ----------

  /** The text cut at every comma. */
  function Split(s: string): (r: seq<string>)
    ensures r != []
    decreases |s|
  {
    var c := IndexOf(s, ',');
    if c == |s| then [s] else [s[..c]] + Split(s[c + 1..])
  }

  /** A list item is a size when parse_pair takes all of it. */
  function ParseSize(item: string, abi: Abi): Option<Size> {
    match ParsePair(item, 'x', abi)
    case None => None
    case Some(p) => if p.end == |item| then Some(Size(p.first, p.second)) else None
  }

  /** A printed size is a size, and with anything behind it that is no digit it is none. */
  lemma JunkSpoilsSize(z: Size, junk: string, abi: Abi)
    requires IsSize32(z) && (junk != [] ==> DigitValue(junk[0]) >= 10)
    ensures ParseSize(PrintSize(z) + junk, abi) == if junk == [] then Some(z) else None
  {
    hide Strtol;
    var w, h := Print(z.width), Print(z.height);
    var s := PrintSize(z) + junk;
    PrintParses(z.width, "x" + h + junk, 10, abi);
    assert w + ("x" + h + junk) == s && s[|w| + 1..] == h + junk;
    PrintParses(z.height, junk, 10, abi);
  }

  /** The sizes of the longest prefix of items that are all sizes. */
  function GoodPrefix(items: seq<string>, abi: Abi): seq<Size> {
    if items == [] then []
    else match ParseSize(items[0], abi)
      case None => []
      case Some(z) => [z] + GoodPrefix(items[1..], abi)
  }

  function PrintSizes(zs: seq<Size>): string
    requires zs != []
  {
    if |zs| == 1 then PrintSize(zs[0]) else PrintSize(zs[0]) + "," + PrintSizes(zs[1..])
  }

  /** parse_pair looks no further than the first comma. */
  lemma PairLocal(item: string, q: string, abi: Abi)
    requires q != [] && q[0] == ','
    ensures ParsePair(item + q, 'x', abi) == ParsePair(item, 'x', abi)
  {
    hide Strtol;
    StrtolLocal(item, q, abi);
    var w := Strtol(item, 10, abi);
    if w.end < |item| {
      assert (item + q)[w.end + 1..] == item[w.end + 1..] + q;
      StrtolLocal(item[w.end + 1..], q, abi);
    }
  }

  /** Parsing at the start of a text sees only the first item: it succeeds and stops at a comma or
      at the end exactly when that item is a size. */
  lemma PairSeesFirstItem(s: string, abi: Abi)
    ensures var p := ParsePair(s, 'x', abi);
            var item := s[..IndexOf(s, ',')];
            (p.Some? && (At(s, p.value.end) == ',' || p.value.end == |s|)) == ParseSize(item, abi).Some?
    ensures var p := ParsePair(s, 'x', abi);
            var item := s[..IndexOf(s, ',')];
            ParseSize(item, abi).Some? ==>
              p.value.end == |item| && ParseSize(item, abi).value == Size(p.value.first, p.value.second)
  {
    hide ParsePair;
    var c := IndexOf(s, ',');
    var item, q := s[..c], s[c..];
    assert s == item + q;
    if q == [] {
      assert item == s;
    } else {
      PairLocal(item, q, abi);
    }
  }

  lemma PrintSizeIsPlain(z: Size)
    ensures PrintSize(z) != [] && Lacks(PrintSize(z), ',') && Lacks(PrintSize(z), NUL) && Acceptable(PrintSize(z))
  {
    hide Print;
    PrintIsPlain(z.width);
    PrintIsPlain(z.height);
  }

  lemma {:induction false} SplitOfSizes(zs: seq<Size>)
    requires zs != []
    ensures |Split(PrintSizes(zs))| == |zs|
    ensures forall i :: 0 <= i < |zs| ==> Split(PrintSizes(zs))[i] == PrintSize(zs[i])
    decreases |zs|
  {
    hide PrintSize;
    var first, s := PrintSize(zs[0]), PrintSizes(zs);
    PrintSizeIsPlain(zs[0]);
    if |zs| == 1 {
      IndexOfIs(s, ',', |s|);
    } else {
      IndexOfIs(s, ',', |first|);
      assert s[..|first|] == first && s[|first| + 1..] == PrintSizes(zs[1..]);
      SplitOfSizes(zs[1..]);
    }
  }

  lemma {:induction false} PrefixOfSizes(zs: seq<Size>, items: seq<string>, abi: Abi)
    requires |items| == |zs| && forall i :: 0 <= i < |zs| ==> IsSize32(zs[i]) && items[i] == PrintSize(zs[i])
    ensures GoodPrefix(items, abi) == zs
  {
    hide ParsePair;
    if zs != [] {
      PairRoundTrip(zs[0], abi);
      PrefixOfSizes(zs[1..], items[1..], abi);
    }
  }

  /** A printed list of sizes parses back to itself. */
  lemma SizesRoundTrip(zs: seq<Size>, abi: Abi)
    requires zs != [] && forall i :: 0 <= i < |zs| ==> IsSize32(zs[i])
    ensures GoodPrefix(Split(PrintSizes(zs)), abi) == zs
  {
    SplitOfSizes(zs);
    PrefixOfSizes(zs, Split(PrintSizes(zs)), abi);
  }

  /** The first item that is no size ends the list: what stands before it is kept, what follows is not read. */
  lemma {:induction false} BadItemEndsList(items: seq<string>, bad: string, rest: seq<string>, abi: Abi)
    requires ParseSize(bad, abi).None?
    requires forall i :: 0 <= i < |items| ==> ParseSize(items[i], abi).Some?
    ensures |GoodPrefix(items + [bad] + rest, abi)| == |items|
    ensures forall i :: 0 <= i < |items| ==>
              GoodPrefix(items + [bad] + rest, abi)[i] == ParseSize(items[i], abi).value
  {
    hide ParseSize;
    var all := items + [bad] + rest;
    if items != [] {
      assert all[1..] == items[1..] + [bad] + rest;
      BadItemEndsList(items[1..], bad, rest, abi);
    }
  }

  /** The items are what stands between the commas. */
  lemma SplitAtComma(item: string, rest: string)
    requires forall i :: 0 <= i < |item| ==> item[i] != ','
    ensures Split(item) == [item] && Split(item + "," + rest) == [item] + Split(rest)
  {
    IndexOfIs(item, ',', |item|);
    var s := item + "," + rest;
    IndexOfIs(s, ',', |item|);
    assert s[..|item|] == item && s[|item| + 1..] == rest;
  }

  // ---------- the code ----------

  /** parse_pair with its out-pointers: on failure nothing is written. */
  method ParsePairAt(s: string, delim: char, abi: Abi, first0: int, second0: int)
    returns (rc: int, first: int, second: int, end: nat)
    requires delim != NUL
    ensures rc == 0 || rc == -1
    ensures rc == 0 ==> ParsePair(s, delim, abi) == Some(Pair(first, second, end))
    ensures rc == -1 ==> ParsePair(s, delim, abi).None? && first == first0 && second == second0
  {
    hide Strtol;
    first, second, end := first0, second0, 0;
    var w := Strtol(s, 10, abi);
    if At(s, w.end) != delim {
      return -1, first, second, end;
    }
    var h := Strtol(s[w.end + 1..], 10, abi);
    return 0, ToInt32(w.value), ToInt32(h.value), w.end + 1 + h.end;
  }

  lemma SplitUnfold(s: string)
    ensures var c := IndexOf(s, ',');
            Split(s) == if c == |s| then [s] else [s[..c]] + Split(s[c + 1..])
  {
    hide IndexOf;
  }

  lemma GoodPrefixUnfold(item: string, items: seq<string>, abi: Abi)
    ensures GoodPrefix([item] + items, abi)
         == match ParseSize(item, abi) case None => [] case Some(z) => [z] + GoodPrefix(items, abi)
  {
    hide ParseSize;
    assert ([item] + items)[1..] == items;
  }

  /** Item by item: the first item of a text and the items after its first comma. */
  lemma SplitStep(s: string, abi: Abi)
    ensures var c := IndexOf(s, ',');
            var z := ParseSize(s[..c], abi);
            GoodPrefix(Split(s), abi) ==
            if z.None? then [] else if c == |s| then [z.value] else [z.value] + GoodPrefix(Split(s[c + 1..]), abi)
  {
    hide ParseSize, IndexOf, Split, GoodPrefix;
    SplitUnfold(s);
    var c := IndexOf(s, ',');
    if c == |s| {
      assert s[..c] == s && [s] + [] == [s];
      GoodPrefixUnfold(s, [], abi);
      GoodPrefixOfNone(abi);
    } else {
      GoodPrefixUnfold(s[..c], Split(s[c + 1..]), abi);
    }
  }

  lemma GoodPrefixOfNone(abi: Abi)
    ensures GoodPrefix([], abi) == []
  {
  }

  /** What is left to parse from position pos on. */
  function Left(s: string, pos: nat, abi: Abi): seq<Size>
    requires pos <= |s|
  {
    GoodPrefix(Split(s[pos..]), abi)
  }

  /** One turn of the loop of parseSizesList, in positions of the whole text. */
  lemma LeftStep(s: string, pos: nat, abi: Abi)
    requires pos <= |s|
    ensures match ParsePair(s[pos..], 'x', abi)
            case None => Left(s, pos, abi) == []
            case Some(p) =>
              if p.end > |s| - pos || (At(s[pos..], p.end) != ',' && p.end != |s| - pos) then Left(s, pos, abi) == []
              else if p.end == |s| - pos then Left(s, pos, abi) == [Size(p.first, p.second)]
              else Left(s, pos, abi) == [Size(p.first, p.second)] + Left(s, pos + p.end + 1, abi)
  {
    hide ParsePair, ParseSize, Split, GoodPrefix, IndexOf;
    SplitStep(s[pos..], abi);
    PairSeesFirstItem(s[pos..], abi);
    var c := IndexOf(s[pos..], ',');
    if c < |s| - pos {
      assert s[pos..][c + 1..] == s[pos + c + 1..];
    }
  }

  /** parseSizesList: the sizes of the longest prefix of well-formed items, in order; nothing for
      a null text.  The loop ends on every text. */
  method ParseSizesList(sizesStr: Option<string>, abi: Abi) returns (sizes: seq<Size>)
    ensures sizes == match sizesStr case None => [] case Some(s) => GoodPrefix(Split(s), abi)
  {
    hide ParsePair, Split, GoodPrefix;
    sizes := [];
    if sizesStr.None? {
      return;
    }
    var s := sizesStr.value;
    var pos := 0;
    assert s[0..] == s;
    ghost var all := Left(s, 0, abi);
    hide Left;
    while true
      invariant pos <= |s|
      invariant sizes + Left(s, pos, abi) == all
      decreases |s| - pos
    {
      LeftStep(s, pos, abi);
      var success, width, height, end := ParsePairAt(s[pos..], 'x', abi, 0, 0);
      if success == -1 || (At(s[pos..], end) != ',' && end != |s[pos..]|) {
        return;
      }
      sizes := sizes + [Size(width, height)];
      if end == |s[pos..]| {
        return;
      }
      pos := pos + end + 1;
    }
  }

  /** What scanning from position a on makes of the map m. */
  function Scanned(s: string, a: nat, m: Entries): Entries
    requires a <= |s|
  {
    ParseFrom(s[a..], m)
  }

  /** One turn of the scanning loop, in positions of the whole text. */
  lemma ParseAt(s: string, a: nat, m: Entries)
    requires a <= |s|
    ensures var b := a + IndexOf(s[a..], '=');
            Scanned(s, a, m) ==
            if b == |s| then m
            else
              var c := b + 1 + IndexOf(s[b + 1..], ';');
              if c == |s| then Insert(m, s[a..b], s[b + 1..])
              else Scanned(s, c + 1, Insert(m, s[a..b], s[b + 1..c]))
  {
    hide Insert, ParseFrom, IndexOf;
    var t := s[a..];
    ParseUnfold(t, m);
    var e := IndexOf(t, '=');
    if e < |t| {
      assert t[..e] == s[a..a + e] && t[e + 1..] == s[a + e + 1..];
      var rest := t[e + 1..];
      var c := IndexOf(rest, ';');
      if c < |rest| {
        assert rest[..c] == s[a + e + 1..a + e + 1 + c] && rest[c + 1..] == s[a + e + 1 + c + 1..];
      }
    }
  }

  lemma FlattenedEmpty()
    ensures Flattened([]) == ""
  {
  }

  lemma FlattenedAt(m: Entries, i: nat)
    requires i < |m|
    ensures Flattened(m[i..]) == if i == |m| - 1 then Item(m[i]) else Item(m[i]) + ";" + Flattened(m[i + 1..])
  {
    assert m[i..][0] == m[i] && m[i..][1..] == m[i + 1..];
  }

  class CameraParameters {
    const abi: Abi
    var mMap: Entries

    ghost predicate Valid()
      reads this
    {
      Clean(mMap)
    }

    constructor (platform: Abi)
      ensures Valid() && mMap == [] && abi == platform
    {
      abi, mMap := platform, [];
    }

    /** Key, '=', value for each entry in order, with ';' between entries. */
    method Flatten() returns (flattened: string)
      ensures flattened == Flattened(mMap)
    {
      hide Flattened;
      flattened := "";
      FlattenedEmpty();
      var i := 0;
      assert mMap[0..] == mMap;
      while i < |mMap|
        invariant 0 <= i <= |mMap|
        invariant i < |mMap| ==> flattened + Flattened(mMap[i..]) == Flattened(mMap)
        invariant i == |mMap| > 0 ==> flattened == Flattened(mMap)
        invariant i == 0 ==> flattened == ""
      {
        FlattenedAt(mMap, i);
        var k, v := mMap[i].key, mMap[i].value;
        ghost var before := flattened;
        flattened := flattened + k;
        flattened := flattened + "=";
        flattened := flattened + v;
        assert flattened == before + Item(mMap[i]);
        if i != |mMap| - 1 {
          flattened := flattened + ";";
          assert flattened + Flattened(mMap[i + 1..])
              == before + (Item(mMap[i]) + ";" + Flattened(mMap[i + 1..]));
        }
        i := i + 1;
      }
      assert |mMap| == 0 ==> mMap == [];
    }

    /** One turn of the scan: the key up to '=', the value up to ';' or the end, and whether the
        text goes on; no entry when no '=' is left. */
    method AddEntry(s: string, a: nat) returns (next: nat, more: bool)
      requires a <= |s|
      modifies this`mMap
      ensures next <= |s|
      ensures more ==> a < next && Scanned(s, next, mMap) == Scanned(s, a, old(mMap))
      ensures !more ==> mMap == Scanned(s, a, old(mMap))
    {
      hide Insert, Scanned, IndexOf;
      ParseAt(s, a, mMap);
      var b := a + IndexOf(s[a..], '=');
      if b == |s| {
        return a, false;
      }
      var k := s[a..b];
      next := b + 1;
      b := next + IndexOf(s[next..], ';');
      if b == |s| {
        mMap := Insert(mMap, k, s[next..]);
        return next, false;
      }
      mMap := Insert(mMap, k, s[next..b]);
      return b + 1, true;
    }

    /** Scan the text from '=' to ';', adding each entry to a cleared map. */
    method Unflatten(params: string)
      modifies this`mMap
      ensures Valid() && mMap == Unflattened(params)
    {
      hide ParseFrom, Clean;
      var s := CStr(params);
      mMap := [];
      UnflattenedIsClean(params);
      assert s[0..] == s;
      assert Scanned(s, 0, []) == Unflattened(params);
      hide Scanned, Unflattened;
      var a, more := 0, true;
      while more
        invariant a <= |s|
        invariant more ==> Scanned(s, a, mMap) == Unflattened(params)
        invariant !more ==> mMap == Unflattened(params)
        decreases more, |s| - a
      {
        a, more := AddEntry(s, a);
      }
    }

    /** set: a key or a value with '=' or ';' is refused; any other is stored as it is. */
    method Set(key: string, value: string)
      requires Valid()
      modifies this`mMap
      ensures Valid() && mMap == SetValue(old(mMap), key, value)
      ensures ('=' !in CStr(key) && ';' !in CStr(key) && '=' !in CStr(value) && ';' !in CStr(value)) ==>
                forall e :: e in mMap <==> e == Entry(CStr(key), CStr(value)) || (e in old(mMap) && e.key != CStr(key))
      ensures '=' in CStr(key) || ';' in CStr(key) || '=' in CStr(value) || ';' in CStr(value) ==> mMap == old(mMap)
      ensures (forall c :: c in key + value ==> c != '\0' && c != '=' && c != ';') ==>
                && ValueFor(mMap, key) == value
                && forall other :: other != key ==> ValueFor(mMap, other) == ValueFor(old(mMap), other)
    {
      SetStores(mMap, key, value);
      PerformKeepsClean(mMap, SetOp(key, value));
      hide Insert, Clean, ValueFor, CStr;
      var k, v := CStr(key), CStr(value);
      if IndexOf(k, '=') < |k| || IndexOf(k, ';') < |k| {
        return;
      }
      if IndexOf(v, '=') < |v| || IndexOf(v, ';') < |v| {
        return;
      }
      mMap := Insert(mMap, k, v);
    }

    method SetInt(key: string, value: int)
      requires Valid() && IsInt32(value)
      modifies this`mMap
      ensures Valid() && mMap == SetValue(old(mMap), key, Print(value))
      ensures '=' !in CStr(key) && ';' !in CStr(key) ==> GetInt(mMap, key, abi) == value
      ensures '=' !in CStr(key) && ';' !in CStr(key) ==>
                forall e :: e in mMap <==> e == Entry(CStr(key), Print(value)) || (e in old(mMap) && e.key != CStr(key))
    {
      PrintIsPlain(value);
      CStrOfNulFree(Print(value));
      if '=' !in CStr(key) && ';' !in CStr(key) {
        IntRoundTrip(mMap, key, value, abi);
      }
      Set(key, Print(value));
    }

    /** setPreviewSize, setVideoSize and setPictureSize differ only in the key. */
    method SetSize(key: string, width: int, height: int)
      requires Valid() && IsInt32(width) && IsInt32(height)
      modifies this`mMap
      ensures Valid() && mMap == SetValue(old(mMap), key, PrintSize(Size(width, height)))
      ensures '=' !in CStr(key) && ';' !in CStr(key) ==> GetSize(mMap, key, abi) == Size(width, height)
      ensures '=' !in CStr(key) && ';' !in CStr(key) ==>
                forall e :: e in mMap <==>
                              || e == Entry(CStr(key), Print(width) + "x" + Print(height))
                              || (e in old(mMap) && e.key != CStr(key))
    {
      hide GetSize;
      PrintSizeIsPlain(Size(width, height));
      CStrOfNulFree(PrintSize(Size(width, height)));
      if '=' !in CStr(key) && ';' !in CStr(key) {
        SizeRoundTrip(mMap, key, Size(width, height), abi);
      }
      Set(key, Print(width) + "x" + Print(height));
    }

    method ReadSize(key: string) returns (width: int, height: int)
      ensures Size(width, height) == GetSize(mMap, key, abi)
      ensures ValueFor(mMap, CStr(key)) == "" ==> width == height == -1
    {
      hide ParsePair;
      width, height := -1, -1;
      var p := Get(mMap, key);
      if p.None? {
        return;
      }
      var rc, w, h, _ := ParsePairAt(p.value, 'x', abi, width, height);
      return w, h;
    }

    method RemoveKey(key: string)
      requires Valid()
      modifies this`mMap
      ensures Valid() && mMap == Remove(old(mMap), CStr(key))
      ensures forall e :: e in mMap <==> e in old(mMap) && e.key != CStr(key)
    {
      RemoveMembers(mMap, CStr(key));
      PerformKeepsClean(mMap, RemoveOp(key));
      mMap := Remove(mMap, CStr(key));
    }
  }
}
