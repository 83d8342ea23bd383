/**
  Canonical JSON: members sorted by key at every level, then printed. Python
  sorts keys by code point and TypeScript by UTF-16 code unit.
*/
module CanonicalJson {
  import opened Framing
  import opened Json
  import Utf8

  // ---- key orders --------------------------------------------------------

  /** Lexicographic order, a proper prefix coming first. */
  predicate LexLeq(a: seq<int>, b: seq<int>) {
    a == [] || (b != [] && (a[0] < b[0] || (a[0] == b[0] && LexLeq(a[1..], b[1..]))))
  }

  function CodePoints(s: string): (r: seq<int>) {
    if s == "" then [] else [s[0] as int] + CodePoints(s[1..])
  }

  /** One code unit below U+10000 and a surrogate pair from there on. */
  function Units(c: char): (r: seq<int>)
    ensures r != []
  {
    var n := c as int;
    if n < 0x1_0000 then [n]
    else [0xD800 + (n - 0x1_0000) / 0x400, 0xDC00 + (n - 0x1_0000) % 0x400]
  }

  function Utf16(s: string): (r: seq<int>) {
    if s == "" then [] else Units(s[0]) + Utf16(s[1..])
  }

  /** A sort order on keys. */
  datatype KeyOrder = CodePointOrder | Utf16Order {
    predicate Leq(a: string, b: string) {
      match this
      case CodePointOrder => LexLeq(CodePoints(a), CodePoints(b))
      case Utf16Order => LexLeq(Utf16(a), Utf16(b))
    }
  }

  lemma {:induction false} LexTotal(a: seq<int>, b: seq<int>)
    ensures LexLeq(a, b) || LexLeq(b, a)
    ensures LexLeq(a, b) && LexLeq(b, a) ==> a == b
  {
    if a != [] && b != [] {
      LexTotal(a[1..], b[1..]);
      assert a == [a[0]] + a[1..] && b == [b[0]] + b[1..];
    }
  }

  lemma {:induction false} LexTransitive(a: seq<int>, b: seq<int>, c: seq<int>)
    requires LexLeq(a, b) && LexLeq(b, c)
    ensures LexLeq(a, c)
  {
    if a != [] && a[0] == b[0] == c[0] {
      LexTransitive(a[1..], b[1..], c[1..]);
    }
  }

  lemma {:induction false} CodePointsInjective(a: string, b: string)
    requires CodePoints(a) == CodePoints(b)
    ensures a == b
  {
    if a != "" && b != "" {
      assert CodePoints(a)[0] == CodePoints(b)[0];
      assert CodePoints(a)[1..] == CodePoints(a[1..]) && CodePoints(b)[1..] == CodePoints(b[1..]);
      CodePointsInjective(a[1..], b[1..]);
      assert a == [a[0]] + a[1..] && b == [b[0]] + b[1..];
    }
  }

  /** Two characters' code units first differ where the characters' order is decided. */
  lemma UnitsSplit(c: char, x: seq<int>, d: char, y: seq<int>)
    requires Units(c) + x == Units(d) + y
    ensures c == d && x == y
  {
    var u, v := Units(c), Units(d);
    assert (u + x)[0] == u[0] && (v + y)[0] == v[0];
    assert |u| == |v|;
    if |u| == 2 {
      assert (u + x)[1] == u[1] && (v + y)[1] == v[1];
      assert c as int == d as int;
    }
    assert (u + x)[|u|..] == x && (v + y)[|v|..] == y;
  }

  lemma {:induction false} Utf16Injective(a: string, b: string)
    requires Utf16(a) == Utf16(b)
    ensures a == b
  {
    if a != "" && b != "" {
      UnitsSplit(a[0], Utf16(a[1..]), b[0], Utf16(b[1..]));
      Utf16Injective(a[1..], b[1..]);
      assert a == [a[0]] + a[1..] && b == [b[0]] + b[1..];
    }
  }

  lemma OrderTotal(order: KeyOrder, a: string, b: string)
    ensures order.Leq(a, b) || order.Leq(b, a)
    ensures order.Leq(a, b) && order.Leq(b, a) ==> a == b
  {
    LexTotal(CodePoints(a), CodePoints(b));
    LexTotal(Utf16(a), Utf16(b));
    if order.Leq(a, b) && order.Leq(b, a) {
      if order.CodePointOrder? {
        CodePointsInjective(a, b);
      } else {
        Utf16Injective(a, b);
      }
    }
  }

  lemma OrderTransitive(order: KeyOrder, a: string, b: string, c: string)
    requires order.Leq(a, b) && order.Leq(b, c)
    ensures order.Leq(a, c)
  {
    if order.CodePointOrder? {
      LexTransitive(CodePoints(a), CodePoints(b), CodePoints(c));
    } else {
      LexTransitive(Utf16(a), Utf16(b), Utf16(c));
    }
  }

  // ---- the orders, spelt out ---------------------------------------------

  predicate FirstDiffers(x: seq<int>, y: seq<int>, k: nat) {
    k < |x| && k < |y| && x[..k] == y[..k] && x[k] < y[k]
  }

  /** `x` is a prefix of `y`, or is smaller where the two first differ. */
  ghost predicate Precedes(x: seq<int>, y: seq<int>) {
    x <= y || exists k: nat :: FirstDiffers(x, y, k)
  }

  lemma DiffersLater(x: seq<int>, y: seq<int>, k: nat)
    requires x != [] && y != [] && x[0] == y[0]
    ensures FirstDiffers(x[1..], y[1..], k) <==> FirstDiffers(x, y, k + 1)
  {
    if k < |x| - 1 && k < |y| - 1 {
      assert x[..k + 1] == [x[0]] + x[1..][..k] && y[..k + 1] == [y[0]] + y[1..][..k];
      assert x[..k + 1][1..] == x[1..][..k] && y[..k + 1][1..] == y[1..][..k];
    }
  }

  lemma PrecedesLater(x: seq<int>, y: seq<int>)
    requires x != [] && y != [] && x[0] == y[0]
    ensures Precedes(x[1..], y[1..]) <==> Precedes(x, y)
  {
    if k: nat :| FirstDiffers(x[1..], y[1..], k) {
      DiffersLater(x, y, k);
    }
    if k: nat :| FirstDiffers(x, y, k) {
      DiffersLater(x, y, k - 1);
    }
    assert x == [x[0]] + x[1..] && y == [y[0]] + y[1..];
  }

  lemma {:induction false} LexIsPrecedes(x: seq<int>, y: seq<int>)
    ensures LexLeq(x, y) <==> Precedes(x, y)
  {
    if x == [] {
      assert x <= y;
    } else if y != [] {
      if x[0] == y[0] {
        LexIsPrecedes(x[1..], y[1..]);
        PrecedesLater(x, y);
      } else if x[0] < y[0] {
        assert FirstDiffers(x, y, 0);
      } else {
        forall k: nat ensures !FirstDiffers(x, y, k) {
          assert k > 0 && k < |x| && k < |y| ==> x[..k][0] != y[..k][0];
        }
      }
    }
  }

  lemma {:induction false} CodePointAt(s: string)
    ensures |CodePoints(s)| == |s| && forall i | 0 <= i < |s| :: CodePoints(s)[i] == s[i] as int
  {
    if s != "" {
      CodePointAt(s[1..]);
    }
  }

  /** What Python compares: the keys character by character. */
  predicate CharDiffers(a: string, b: string, k: nat) {
    k < |a| && k < |b| && a[..k] == b[..k] && a[k] < b[k]
  }

  lemma CharsDiffer(a: string, b: string, k: nat)
    ensures CharDiffers(a, b, k) <==> FirstDiffers(CodePoints(a), CodePoints(b), k)
  {
    CodePointAt(a);
    CodePointAt(b);
    if k < |a| && k < |b| {
      var x, y := CodePoints(a)[..k], CodePoints(b)[..k];
      if x == y {
        forall i | 0 <= i < k ensures a[i] == b[i] {
          assert x[i] == y[i];
        }
      }
      assert a[..k] == b[..k] ==> forall i | 0 <= i < k :: a[..k][i] == b[..k][i];
    }
  }

  lemma PrefixChars(a: string, b: string)
    ensures a <= b <==> CodePoints(a) <= CodePoints(b)
  {
    CodePointAt(a);
    CodePointAt(b);
    if CodePoints(a) <= CodePoints(b) {
      forall i | 0 <= i < |a| ensures a[i] == b[i] {
        assert CodePoints(a)[i] == CodePoints(b)[i];
      }
    }
  }

  /** `a` comes before `b` or is it: a prefix, or smaller at the first difference, in characters or code units. */
  ghost predicate Before(order: KeyOrder, a: string, b: string) {
    match order
    case CodePointOrder => a <= b || exists k: nat :: CharDiffers(a, b, k)
    case Utf16Order => Precedes(Utf16(a), Utf16(b))
  }

  /** Both sort orders ascend: by character in Python, by UTF-16 code unit in TypeScript. */
  lemma OrderAscends(order: KeyOrder, a: string, b: string)
    ensures order.Leq(a, b) <==> Before(order, a, b)
  {
    if order.CodePointOrder? {
      LexIsPrecedes(CodePoints(a), CodePoints(b));
      PrefixChars(a, b);
      forall k: nat {
        CharsDiffer(a, b, k);
      }
    } else {
      LexIsPrecedes(Utf16(a), Utf16(b));
    }
  }

  /** The code units of a text: a character below U+10000 is its own, any other a pair of surrogates. */
  lemma UnitsDecode(c: char)
    ensures var n, u := c as int, Units(c);
      if n < 0x1_0000 then u == [n]
      else
        && |u| == 2 && 0xD800 <= u[0] < 0xDC00 <= u[1] < 0xE000
        && 0x1_0000 + (u[0] - 0xD800) * 0x400 + (u[1] - 0xDC00) == n
    ensures Utf16("") == []
    ensures forall s :: Utf16([c] + s) == Units(c) + Utf16(s)
  {
    forall s ensures Utf16([c] + s) == Units(c) + Utf16(s) {
      assert ([c] + s)[1..] == s;
    }
  }

  // ---- sorting -----------------------------------------------------------

  function Insert(m: Member, sorted: seq<Member>, order: KeyOrder): (r: seq<Member>)
    ensures |r| == |sorted| + 1
  {
    if sorted == [] || order.Leq(m.key, sorted[0].key) then [m] + sorted
    else [sorted[0]] + Insert(m, sorted[1..], order)
  }

  /** The value with the members of every object in key order. */
  function SortKeys(j: Json, order: KeyOrder): Json
    decreases j, 1
  {
    match j
    case Arr(items) => Arr(SortItems(items, order))
    case Obj(members) => Obj(SortMembers(members, order))
    case _ => j
  }

  function SortItems(items: seq<Json>, order: KeyOrder): (r: seq<Json>)
    ensures |r| == |items|
    decreases items, 0
  {
    if items == [] then [] else [SortKeys(items[0], order)] + SortItems(items[1..], order)
  }

  function SortMembers(members: seq<Member>, order: KeyOrder): (r: seq<Member>)
    ensures |r| == |members|
    decreases members, 0
  {
    if members == [] then []
    else
      var first := Member(members[0].key, SortKeys(members[0].value, order));
      Insert(first, SortMembers(members[1..], order), order)
  }

  /** Python's canonical bytes: keys sorted by code point, printed compactly, encoded as UTF-8. */
  function CanonicalJson(j: Json): Bytes {
    Utf8.Encode(Print(SortKeys(j, CodePointOrder)))
  }

  predicate IsNumber(j: Json) {
    j.Int? || j.Float?
  }

  /**
    How TypeScript prints a number: as the text of which number, or as `null` past
    the range of a double. Integers up to 2^53 are exact; others are rounded, and a
    float without a fraction loses its point.
  */
  ghost predicate NumberPrinter(js: Json -> Json) {
    && (forall j | IsNumber(j) :: IsNumber(js(j)) || js(j) == Null)
    && (forall n | -0x20_0000_0000_0000 <= n <= 0x20_0000_0000_0000 :: js(Int(n)) == Int(n))
  }

  /** The value with every number as TypeScript prints it. */
  function Renumber(j: Json, js: Json -> Json): Json
    decreases j, 1
  {
    match j
    case Int(_) => js(j)
    case Float(_) => js(j)
    case Arr(items) => Arr(RenumberItems(items, js))
    case Obj(members) => Obj(RenumberMembers(members, js))
    case _ => j
  }

  function RenumberItems(items: seq<Json>, js: Json -> Json): (r: seq<Json>)
    ensures |r| == |items|
    decreases items, 0
  {
    if items == [] then [] else [Renumber(items[0], js)] + RenumberItems(items[1..], js)
  }

  function RenumberMembers(members: seq<Member>, js: Json -> Json): (r: seq<Member>)
    ensures |r| == |members|
    decreases members, 0
  {
    if members == [] then []
    else [Member(members[0].key, Renumber(members[0].value, js))] + RenumberMembers(members[1..], js)
  }

  /** TypeScript's canonical bytes: keys sorted by code unit, numbers printed its own way. */
  function CanonicalJsonTs(j: Json, js: Json -> Json): Bytes {
    Utf8.Encode(Print(SortKeys(Renumber(j, js), Utf16Order)))
  }

  /** Every number of the value prints alike in both languages. */
  predicate NumbersAlike(j: Json, js: Json -> Json)
    decreases j, 1
  {
    match j
    case Int(_) => js(j) == j
    case Float(_) => js(j) == j
    case Arr(items) => forall i | 0 <= i < |items| :: NumbersAlike(items[i], js)
    case Obj(members) => forall i | 0 <= i < |members| :: NumbersAlike(members[i].value, js)
    case _ => true
  }

  // ---- what a value means ------------------------------------------------

  /** A JSON value with its objects as dictionaries, so without any member order. */
  datatype Value =
    | NullValue
    | BoolValue(b: bool)
    | IntValue(n: int)
    | FloatValue(text: FloatText)
    | StrValue(s: string)
    | ArrValue(items: seq<Value>)
    | ObjValue(members: map<string, Value>)

  function Meaning(j: Json): Value
    decreases j, 1
  {
    match j
    case Null => NullValue
    case Bool(b) => BoolValue(b)
    case Int(n) => IntValue(n)
    case Float(text) => FloatValue(text)
    case Str(s) => StrValue(s)
    case Arr(items) => ArrValue(MeaningItems(items))
    case Obj(members) => ObjValue(MeaningMembers(members))
  }

  function MeaningItems(items: seq<Json>): (r: seq<Value>)
    ensures |r| == |items|
    decreases items, 0
  {
    if items == [] then [] else [Meaning(items[0])] + MeaningItems(items[1..])
  }

  function MeaningMembers(members: seq<Member>): map<string, Value>
    decreases members, 0
  {
    if members == [] then map[]
    else MeaningMembers(members[1..])[members[0].key := Meaning(members[0].value)]
  }

  /** A dictionary holds a key once, at every level. */
  predicate DistinctKeys(j: Json)
    decreases j, 1
  {
    match j
    case Arr(items) => forall i | 0 <= i < |items| :: DistinctKeys(items[i])
    case Obj(members) => DistinctMembers(members)
    case _ => true
  }

  predicate DistinctMembers(members: seq<Member>)
    decreases members, 0
  {
    members == [] ||
    (DistinctKeys(members[0].value) && members[0].key !in MeaningMembers(members[1..]) && DistinctMembers(members[1..]))
  }

  lemma {:induction false} AbsentKey(members: seq<Member>, key: string)
    requires forall i | 0 <= i < |members| :: members[i].key != key
    ensures key !in MeaningMembers(members)
  {
    if members != [] {
      AbsentKey(members[1..], key);
    }
  }

  /** Members with different keys, as a dictionary literal writes them. */
  lemma {:induction false} DifferentKeys(members: seq<Member>)
    requires forall i, j | 0 <= i < j < |members| :: members[i].key != members[j].key
    requires forall i | 0 <= i < |members| :: DistinctKeys(members[i].value)
    ensures DistinctMembers(members)
  {
    if members != [] {
      AbsentKey(members[1..], members[0].key);
      DifferentKeys(members[1..]);
    }
  }

  // ---- sorted form -------------------------------------------------------

  predicate Less(order: KeyOrder, a: string, b: string) {
    a != b && order.Leq(a, b)
  }

  predicate Sorted(j: Json, order: KeyOrder)
    decreases j, 1
  {
    match j
    case Arr(items) => SortedItems(items, order)
    case Obj(members) => SortedMembers(members, order)
    case _ => true
  }

  predicate SortedItems(items: seq<Json>, order: KeyOrder)
    decreases items, 0
  {
    items == [] || (Sorted(items[0], order) && SortedItems(items[1..], order))
  }

  predicate SortedMembers(members: seq<Member>, order: KeyOrder)
    decreases members, 0
  {
    members == [] ||
    (Sorted(members[0].value, order) && SortedMembers(members[1..], order)
     && forall key | key in MeaningMembers(members[1..]) :: Less(order, members[0].key, key))
  }

  lemma SwapUpdates<V>(m: map<string, V>, a: string, v: V, b: string, w: V)
    requires a != b
    ensures m[a := v][b := w] == m[b := w][a := v]
  {
  }

  lemma {:induction false} InsertMeaning(m: Member, sorted: seq<Member>, order: KeyOrder)
    requires m.key !in MeaningMembers(sorted)
    ensures MeaningMembers(Insert(m, sorted, order)) == MeaningMembers(sorted)[m.key := Meaning(m.value)]
  {
    var r := Insert(m, sorted, order);
    if sorted == [] || order.Leq(m.key, sorted[0].key) {
      assert r[1..] == sorted;
    } else {
      assert r[1..] == Insert(m, sorted[1..], order);
      InsertMeaning(m, sorted[1..], order);
      SwapUpdates(MeaningMembers(sorted[1..]), m.key, Meaning(m.value), sorted[0].key, Meaning(sorted[0].value));
    }
  }

  lemma {:induction false} InsertSorted(m: Member, sorted: seq<Member>, order: KeyOrder)
    requires SortedMembers(sorted, order) && Sorted(m.value, order) && m.key !in MeaningMembers(sorted)
    ensures SortedMembers(Insert(m, sorted, order), order)
  {
    var r := Insert(m, sorted, order);
    if sorted == [] {
      assert r[1..] == [];
    } else if order.Leq(m.key, sorted[0].key) {
      assert r[1..] == sorted;
      BelowAll(m.key, sorted, order);
    } else {
      assert r[1..] == Insert(m, sorted[1..], order);
      InsertSorted(m, sorted[1..], order);
      InsertMeaning(m, sorted[1..], order);
      OrderTotal(order, m.key, sorted[0].key);
    }
  }

  lemma BelowAll(key: string, sorted: seq<Member>, order: KeyOrder)
    requires SortedMembers(sorted, order) && sorted != [] && key !in MeaningMembers(sorted)
    requires order.Leq(key, sorted[0].key)
    ensures forall k | k in MeaningMembers(sorted) :: Less(order, key, k)
  {
    forall k | k in MeaningMembers(sorted) ensures Less(order, key, k) {
      if k != sorted[0].key {
        OrderTransitive(order, key, sorted[0].key, k);
      }
    }
  }

  /** Sorting changes no value's meaning and puts every level in key order. */
  lemma {:induction false} SortKeepsMeaning(j: Json, order: KeyOrder)
    requires DistinctKeys(j)
    ensures Meaning(SortKeys(j, order)) == Meaning(j)
    ensures Sorted(SortKeys(j, order), order)
    decreases j, 1
  {
    match j
    case Arr(items) => SortItemsKeeps(items, order);
    case Obj(members) => SortMembersKeeps(members, order);
    case _ =>
  }

  lemma {:induction false} SortItemsKeeps(items: seq<Json>, order: KeyOrder)
    requires forall i | 0 <= i < |items| :: DistinctKeys(items[i])
    ensures MeaningItems(SortItems(items, order)) == MeaningItems(items)
    ensures SortedItems(SortItems(items, order), order)
    decreases items, 0
  {
    if items != [] {
      SortKeepsMeaning(items[0], order);
      SortItemsKeeps(items[1..], order);
      assert SortItems(items, order)[1..] == SortItems(items[1..], order);
    }
  }

  lemma {:induction false} SortMembersKeeps(members: seq<Member>, order: KeyOrder)
    requires DistinctMembers(members)
    ensures MeaningMembers(SortMembers(members, order)) == MeaningMembers(members)
    ensures SortedMembers(SortMembers(members, order), order)
    decreases members, 0
  {
    if members != [] {
      SortKeepsMeaning(members[0].value, order);
      SortMembersKeeps(members[1..], order);
      var first := Member(members[0].key, SortKeys(members[0].value, order));
      InsertMeaning(first, SortMembers(members[1..], order), order);
      InsertSorted(first, SortMembers(members[1..], order), order);
    }
  }

  /** Every object lists its keys in ascending order, at every level. */
  ghost predicate Ascending(j: Json, order: KeyOrder)
    decreases j
  {
    match j
    case Arr(items) => forall i | 0 <= i < |items| :: Ascending(items[i], order)
    case Obj(members) =>
      && (forall p, q | 0 <= p < q < |members| ::
           members[p].key != members[q].key && Before(order, members[p].key, members[q].key))
      && (forall i | 0 <= i < |members| :: Ascending(members[i].value, order))
    case _ => true
  }

  lemma {:induction false} KeyOfMember(members: seq<Member>, i: nat)
    requires i < |members|
    ensures members[i].key in MeaningMembers(members)
  {
    if i > 0 {
      KeyOfMember(members[1..], i - 1);
    }
  }

  lemma {:induction false} SortedAscends(j: Json, order: KeyOrder)
    requires Sorted(j, order)
    ensures Ascending(j, order)
    decreases j, 1
  {
    match j
    case Arr(items) => ItemsAscend(items, order);
    case Obj(members) => MembersAscend(members, order);
    case _ =>
  }

  lemma {:induction false} ItemsAscend(items: seq<Json>, order: KeyOrder)
    requires SortedItems(items, order)
    ensures forall i | 0 <= i < |items| :: Ascending(items[i], order)
    decreases items, 0
  {
    if items != [] {
      SortedAscends(items[0], order);
      ItemsAscend(items[1..], order);
    }
  }

  lemma HeadAscends(members: seq<Member>, order: KeyOrder, q: nat)
    requires SortedMembers(members, order) && 0 < q < |members|
    ensures members[0].key != members[q].key && Before(order, members[0].key, members[q].key)
  {
    KeyOfMember(members[1..], q - 1);
    OrderAscends(order, members[0].key, members[q].key);
  }

  lemma {:induction false} MembersAscend(members: seq<Member>, order: KeyOrder)
    requires SortedMembers(members, order)
    ensures forall p, q | 0 <= p < q < |members| ::
      members[p].key != members[q].key && Before(order, members[p].key, members[q].key)
    ensures forall i | 0 <= i < |members| :: Ascending(members[i].value, order)
    decreases members, 0
  {
    if members != [] {
      SortedAscends(members[0].value, order);
      MembersAscend(members[1..], order);
      forall q | 0 < q < |members|
        ensures members[0].key != members[q].key && Before(order, members[0].key, members[q].key)
      {
        HeadAscends(members, order, q);
      }
    }
  }

  /** Sorting puts the keys of every object, at every depth, in ascending order. */
  lemma SortAscends(j: Json, order: KeyOrder)
    requires DistinctKeys(j)
    ensures Ascending(SortKeys(j, order), order)
  {
    SortKeepsMeaning(j, order);
    SortedAscends(SortKeys(j, order), order);
  }

  /** A sorted value is determined by its meaning. */
  lemma {:induction false} SortedUnique(a: Json, b: Json, order: KeyOrder)
    requires Sorted(a, order) && Sorted(b, order) && Meaning(a) == Meaning(b)
    ensures a == b
    decreases a, 1
  {
    match a
    case Arr(items) => SortedItemsUnique(items, b.items, order);
    case Obj(members) => SortedMembersUnique(members, b.members, order);
    case _ =>
  }

  lemma {:induction false} SortedItemsUnique(a: seq<Json>, b: seq<Json>, order: KeyOrder)
    requires SortedItems(a, order) && SortedItems(b, order) && MeaningItems(a) == MeaningItems(b)
    ensures a == b
    decreases a, 0
  {
    if a != [] {
      assert MeaningItems(a)[0] == MeaningItems(b)[0];
      assert MeaningItems(a)[1..] == MeaningItems(a[1..]) && MeaningItems(b)[1..] == MeaningItems(b[1..]);
      SortedUnique(a[0], b[0], order);
      SortedItemsUnique(a[1..], b[1..], order);
      assert a == [a[0]] + a[1..] && b == [b[0]] + b[1..];
    }
  }

  lemma {:induction false} SortedMembersUnique(a: seq<Member>, b: seq<Member>, order: KeyOrder)
    requires SortedMembers(a, order) && SortedMembers(b, order) && MeaningMembers(a) == MeaningMembers(b)
    ensures a == b
    decreases a, 0
  {
    assert b != [] ==> b[0].key in MeaningMembers(b);
    if a != [] {
      var k := a[0].key;
      assert k in MeaningMembers(b);
      assert b[0].key in MeaningMembers(a);
      OrderTotal(order, k, b[0].key);
      assert b[0].key == k;
      SortedUnique(a[0].value, b[0].value, order);
      WithoutHead(a, order);
      WithoutHead(b, order);
      SortedMembersUnique(a[1..], b[1..], order);
      assert a == [a[0]] + a[1..] && b == [b[0]] + b[1..];
    }
  }

  lemma WithoutHead(members: seq<Member>, order: KeyOrder)
    requires members != [] && SortedMembers(members, order)
    ensures MeaningMembers(members[1..]) == MeaningMembers(members) - {members[0].key}
  {
    assert !Less(order, members[0].key, members[0].key);
  }

  // ---- canonical form ----------------------------------------------------

  /**
    The canonical bytes of two values are equal exactly when the values mean the
    same: injective on meaning, independent of every object's insertion order.
  */
  lemma CanonicalIffSameMeaning(a: Json, b: Json)
    requires DistinctKeys(a) && DistinctKeys(b)
    ensures CanonicalJson(a) == CanonicalJson(b) <==> Meaning(a) == Meaning(b)
  {
    var x, y := SortKeys(a, CodePointOrder), SortKeys(b, CodePointOrder);
    SortKeepsMeaning(a, CodePointOrder);
    SortKeepsMeaning(b, CodePointOrder);
    if CanonicalJson(a) == CanonicalJson(b) {
      Utf8.EncodeInjective(Print(x), Print(y));
      PrintInjective(x, y);
    }
    if Meaning(a) == Meaning(b) {
      SortedUnique(x, y, CodePointOrder);
    }
  }

  /** The canonical bytes are a text that parses back to a value of the same meaning, its keys ascending. */
  lemma CanonicalTextParses(j: Json) returns (sorted: Json)
    requires DistinctKeys(j)
    ensures CanonicalJson(j) == Utf8.Encode(Print(sorted))
    ensures Ascending(sorted, CodePointOrder) && Meaning(sorted) == Meaning(j)
    ensures Parse(Print(sorted)) == Read(sorted, "")
  {
    sorted := SortKeys(j, CodePointOrder);
    SortKeepsMeaning(j, CodePointOrder);
    SortedAscends(sorted, CodePointOrder);
    ParsePrinted(sorted, "");
    assert Print(sorted) + "" == Print(sorted);
  }

  /** So do TypeScript's, of the value with the numbers as they are printed there. */
  lemma CanonicalTextTs(j: Json, js: Json -> Json) returns (sorted: Json)
    requires NumberPrinter(js) && DistinctKeys(j)
    ensures CanonicalJsonTs(j, js) == Utf8.Encode(Print(sorted))
    ensures Ascending(sorted, Utf16Order) && Meaning(sorted) == Meaning(Renumber(j, js))
  {
    sorted := SortKeys(Renumber(j, js), Utf16Order);
    RenumberMeaning(j, js);
    SortKeepsMeaning(Renumber(j, js), Utf16Order);
    SortedAscends(sorted, Utf16Order);
  }

  // ---- Python and TypeScript ---------------------------------------------

  /** One character beyond the Basic Multilingual Plane, one above the surrogates inside it. */
  predicate CrossedChars(c: char, d: char) {
    (c as int >= 0x1_0000 && 0xE000 <= d as int < 0x1_0000) || (d as int >= 0x1_0000 && 0xE000 <= c as int < 0x1_0000)
  }

  /** The first difference of the two keys is a pair the two orders rank oppositely. */
  predicate Crossed(a: string, b: string) {
    a != "" && b != "" && if a[0] == b[0] then Crossed(a[1..], b[1..]) else CrossedChars(a[0], b[0])
  }

  lemma LexStrip(u: seq<int>, x: seq<int>, y: seq<int>)
    requires 1 <= |u| <= 2
    ensures LexLeq(u + x, u + y) <==> LexLeq(x, y)
  {
    assert (u + x)[1..] == u[1..] + x && (u + y)[1..] == u[1..] + y;
    if |u| == 2 {
      assert (u[1..] + x)[1..] == x && (u[1..] + y)[1..] == y;
    } else {
      assert u[1..] + x == x && u[1..] + y == y;
    }
  }

  lemma UnitsOrder(c: char, x: seq<int>, d: char, y: seq<int>)
    requires c != d
    ensures LexLeq(Units(c) + x, Units(d) + y) <==> ((c as int) < (d as int)) != CrossedChars(c, d)
  {
    var u, v := Units(c), Units(d);
    var m, n := c as int, d as int;
    assert (u + x)[0] == u[0] && (v + y)[0] == v[0];
    if u[0] == v[0] {
      assert (u + x)[1] == u[1] && (v + y)[1] == v[1];
      assert u[1] - v[1] == m - n;
    }
  }

  lemma {:induction false} OrdersAgree(a: string, b: string)
    requires a != b
    ensures CodePointOrder.Leq(a, b) == Utf16Order.Leq(a, b) <==> !Crossed(a, b)
  {
    if a != "" && b != "" {
      var x, y := CodePoints(a[1..]), CodePoints(b[1..]);
      assert CodePoints(a)[1..] == x && CodePoints(b)[1..] == y;
      if a[0] == b[0] {
        assert a == [a[0]] + a[1..] && b == [b[0]] + b[1..];
        LexStrip(Units(a[0]), Utf16(a[1..]), Utf16(b[1..]));
        OrdersAgree(a[1..], b[1..]);
      } else {
        assert CodePoints(a)[0] == a[0] as int && CodePoints(b)[0] == b[0] as int;
        UnitsOrder(a[0], Utf16(a[1..]), b[0], Utf16(b[1..]));
      }
    }
  }

  /** No dictionary in the value holds two crossed keys. */
  predicate PlainKeys(v: Value)
    decreases v
  {
    match v
    case ArrValue(items) => forall i | 0 <= i < |items| :: PlainKeys(items[i])
    case ObjValue(members) =>
      && (forall key | key in members :: PlainKeys(members[key]))
      && (forall a, b | a in members && b in members :: !Crossed(a, b))
    case _ => true
  }

  lemma LessAgrees(a: string, b: string)
    requires Less(CodePointOrder, a, b)
    ensures Less(Utf16Order, a, b) <==> !Crossed(a, b)
    ensures Crossed(a, b) == Crossed(b, a)
  {
    OrdersAgree(a, b);
    CrossedSymmetric(a, b);
  }

  lemma {:induction false} CrossedSymmetric(a: string, b: string)
    ensures Crossed(a, b) == Crossed(b, a)
  {
    if a != "" && b != "" && a[0] == b[0] {
      CrossedSymmetric(a[1..], b[1..]);
    }
  }

  lemma {:induction false} NotCrossedWithItself(a: string)
    ensures !Crossed(a, a)
  {
    if a != "" {
      NotCrossedWithItself(a[1..]);
    }
  }

  /** A value sorted by code point is sorted by code unit exactly when its keys are plain. */
  lemma {:induction false} SortedBothWays(j: Json)
    requires Sorted(j, CodePointOrder)
    ensures Sorted(j, Utf16Order) <==> PlainKeys(Meaning(j))
    decreases j, 1
  {
    match j
    case Arr(items) => ItemsBothWays(items);
    case Obj(members) => MembersBothWays(members);
    case _ =>
  }

  lemma {:induction false} ItemsBothWays(items: seq<Json>)
    requires SortedItems(items, CodePointOrder)
    ensures SortedItems(items, Utf16Order) <==> PlainKeys(ArrValue(MeaningItems(items)))
    decreases items, 0
  {
    if items != [] {
      SortedBothWays(items[0]);
      ItemsBothWays(items[1..]);
      var v, rest := MeaningItems(items), MeaningItems(items[1..]);
      assert v[0] == Meaning(items[0]) && v[1..] == rest;
      assert forall i | 0 <= i < |rest| :: rest[i] == v[i + 1];
    }
  }

  lemma {:induction false} MembersBothWays(members: seq<Member>)
    requires SortedMembers(members, CodePointOrder)
    ensures SortedMembers(members, Utf16Order) <==> PlainKeys(ObjValue(MeaningMembers(members)))
    decreases members, 0
  {
    if members != [] {
      SortedBothWays(members[0].value);
      MembersBothWays(members[1..]);
      WithoutHead(members, CodePointOrder);
      var head, rest := members[0].key, MeaningMembers(members[1..]);
      forall key | key in rest
        ensures Less(Utf16Order, head, key) <==> !Crossed(head, key)
        ensures Crossed(head, key) == Crossed(key, head)
      {
        LessAgrees(head, key);
      }
      NotCrossedWithItself(head);
      PlainKeysStep(head, Meaning(members[0].value), rest);
    }
  }

  lemma PlainKeysStep(head: string, value: Value, rest: map<string, Value>)
    requires head !in rest && !Crossed(head, head)
    requires forall key | key in rest :: Crossed(head, key) == Crossed(key, head)
    ensures PlainKeys(ObjValue(rest[head := value]))
       <==> PlainKeys(value) && PlainKeys(ObjValue(rest)) && forall key | key in rest :: !Crossed(head, key)
  {
    var all := rest[head := value];
    if PlainKeys(ObjValue(all)) {
      assert all[head] == value;
      forall key | key in rest ensures PlainKeys(rest[key]) && !Crossed(head, key) {
        assert all[key] == rest[key];
      }
    }
  }

  // ---- numbers -----------------------------------------------------------

  /** Printing numbers differently keeps the keys, and keeps the meaning only if it changes no number. */
  lemma {:induction false} RenumberMeaning(j: Json, js: Json -> Json)
    requires NumberPrinter(js) && DistinctKeys(j)
    ensures DistinctKeys(Renumber(j, js))
    ensures Meaning(Renumber(j, js)) == Meaning(j) <==> NumbersAlike(j, js)
    decreases j, 1
  {
    match j
    case Int(_) => assert IsNumber(js(j)) || js(j) == Null;
    case Float(_) => assert IsNumber(js(j)) || js(j) == Null;
    case Arr(items) => ItemsMeaning(items, js);
    case Obj(members) => MembersMeaning(members, js);
    case _ =>
  }

  lemma {:induction false} ItemsMeaning(items: seq<Json>, js: Json -> Json)
    requires NumberPrinter(js) && forall i | 0 <= i < |items| :: DistinctKeys(items[i])
    ensures forall i | 0 <= i < |items| :: DistinctKeys(RenumberItems(items, js)[i])
    ensures MeaningItems(RenumberItems(items, js)) == MeaningItems(items)
       <==> forall i | 0 <= i < |items| :: NumbersAlike(items[i], js)
    decreases items, 0
  {
    if items != [] {
      var r := RenumberItems(items, js);
      RenumberMeaning(items[0], js);
      ItemsMeaning(items[1..], js);
      assert r[0] == Renumber(items[0], js) && r[1..] == RenumberItems(items[1..], js);
      ConsEqual(Meaning(r[0]), MeaningItems(r[1..]), Meaning(items[0]), MeaningItems(items[1..]));
      assert items == [items[0]] + items[1..];
    }
  }

  lemma ConsEqual<T>(x: T, a: seq<T>, y: T, b: seq<T>)
    ensures [x] + a == [y] + b <==> x == y && a == b
  {
    if [x] + a == [y] + b {
      assert ([x] + a)[0] == x && ([y] + b)[0] == y;
      assert ([x] + a)[1..] == a && ([y] + b)[1..] == b;
    }
  }

  lemma {:induction false} MembersMeaning(members: seq<Member>, js: Json -> Json)
    requires NumberPrinter(js) && DistinctMembers(members)
    ensures DistinctMembers(RenumberMembers(members, js))
    ensures MeaningMembers(RenumberMembers(members, js)).Keys == MeaningMembers(members).Keys
    ensures MeaningMembers(RenumberMembers(members, js)) == MeaningMembers(members)
       <==> forall i | 0 <= i < |members| :: NumbersAlike(members[i].value, js)
    decreases members, 0
  {
    if members != [] {
      var m, rest := members[0], members[1..];
      var m', rest' := Member(m.key, Renumber(m.value, js)), RenumberMembers(rest, js);
      RenumberMeaning(m.value, js);
      MembersMeaning(rest, js);
      assert RenumberMembers(members, js) == [m'] + rest' && ([m'] + rest')[1..] == rest';
      UpdateEqual(MeaningMembers(rest'), Meaning(m'.value), MeaningMembers(rest), Meaning(m.value), m.key);
      assert members == [m] + rest;
    }
  }

  lemma UpdateEqual<V>(a: map<string, V>, v: V, b: map<string, V>, w: V, key: string)
    requires key !in a && key !in b
    ensures a[key := v] == b[key := w] <==> a == b && v == w
  {
    if a[key := v] == b[key := w] {
      assert a[key := v][key] == v && b[key := w][key] == w;
      assert a == a[key := v] - {key} && b == b[key := w] - {key};
    }
  }

  /** Integers up to 2^53 are the only numbers in the value. */
  predicate ExactIntegers(j: Json)
    decreases j, 1
  {
    match j
    case Int(n) => -0x20_0000_0000_0000 <= n <= 0x20_0000_0000_0000
    case Float(_) => false
    case Arr(items) => forall i | 0 <= i < |items| :: ExactIntegers(items[i])
    case Obj(members) => forall i | 0 <= i < |members| :: ExactIntegers(members[i].value)
    case _ => true
  }

  lemma {:induction false} ExactIntegersPrintAlike(j: Json, js: Json -> Json)
    requires NumberPrinter(js) && ExactIntegers(j)
    ensures NumbersAlike(j, js)
    decreases j
  {
    match j
    case Arr(items) =>
      forall i | 0 <= i < |items| ensures NumbersAlike(items[i], js) {
        ExactIntegersPrintAlike(items[i], js);
      }
    case Obj(members) =>
      forall i | 0 <= i < |members| ensures NumbersAlike(members[i].value, js) {
        ExactIntegersPrintAlike(members[i].value, js);
      }
    case _ =>
  }

  // ---- agreement ---------------------------------------------------------

  /**
    Python and TypeScript produce the same bytes exactly for the values none of
    whose dictionaries holds two crossed keys and all of whose numbers print alike.
  */
  lemma LanguagesAgree(j: Json, js: Json -> Json)
    requires DistinctKeys(j) && NumberPrinter(js)
    ensures CanonicalJson(j) == CanonicalJsonTs(j, js) <==> PlainKeys(Meaning(j)) && NumbersAlike(j, js)
  {
    var j' := Renumber(j, js);
    var py, ts := SortKeys(j, CodePointOrder), SortKeys(j', Utf16Order);
    RenumberMeaning(j, js);
    SortKeepsMeaning(j, CodePointOrder);
    SortKeepsMeaning(j', Utf16Order);
    SortedBothWays(py);
    if CanonicalJson(j) == CanonicalJsonTs(j, js) {
      Utf8.EncodeInjective(Print(py), Print(ts));
      PrintInjective(py, ts);
    }
    if PlainKeys(Meaning(j)) && NumbersAlike(j, js) {
      SortedUnique(py, ts, Utf16Order);
    }
  }

  /** The text stays inside the Basic Multilingual Plane. */
  predicate Bmp(s: string) {
    forall i | 0 <= i < |s| :: (s[i] as int) < 0x1_0000
  }

  /** Keys inside the Basic Multilingual Plane are never crossed. */
  lemma {:induction false} BmpKeysAreNotCrossed(a: string, b: string)
    requires Bmp(a) && Bmp(b)
    ensures !Crossed(a, b)
  {
    if a != "" && b != "" && a[0] == b[0] {
      BmpKeysAreNotCrossed(a[1..], b[1..]);
    }
  }

  /** Every key at every depth is inside the plane. */
  predicate BmpKeys(j: Json)
    decreases j, 1
  {
    match j
    case Arr(items) => forall i | 0 <= i < |items| :: BmpKeys(items[i])
    case Obj(members) => forall i | 0 <= i < |members| :: Bmp(members[i].key) && BmpKeys(members[i].value)
    case _ => true
  }

  lemma {:induction false} BmpKeysArePlain(j: Json)
    requires BmpKeys(j)
    ensures PlainKeys(Meaning(j))
    decreases j, 1
  {
    match j
    case Arr(items) => BmpItems(items);
    case Obj(members) =>
      BmpMembers(members);
      var m := MeaningMembers(members);
      forall a, b | a in m && b in m ensures !Crossed(a, b) {
        BmpKeysAreNotCrossed(a, b);
      }
    case _ =>
  }

  lemma {:induction false} BmpItems(items: seq<Json>)
    requires forall i | 0 <= i < |items| :: BmpKeys(items[i])
    ensures forall i | 0 <= i < |items| :: PlainKeys(MeaningItems(items)[i])
    decreases items, 0
  {
    if items != [] {
      BmpKeysArePlain(items[0]);
      BmpItems(items[1..]);
    }
  }

  lemma {:induction false} BmpMembers(members: seq<Member>)
    requires forall i | 0 <= i < |members| :: Bmp(members[i].key) && BmpKeys(members[i].value)
    ensures forall key | key in MeaningMembers(members) :: Bmp(key) && PlainKeys(MeaningMembers(members)[key])
    decreases members, 0
  {
    if members != [] {
      BmpKeysArePlain(members[0].value);
      BmpMembers(members[1..]);
    }
  }

  /** So the languages agree on values of any nesting with such keys and with exact integers. */
  lemma BmpValuesAgree(j: Json, js: Json -> Json)
    requires DistinctKeys(j) && NumberPrinter(js) && BmpKeys(j) && ExactIntegers(j)
    ensures CanonicalJson(j) == CanonicalJsonTs(j, js)
  {
    BmpKeysArePlain(j);
    ExactIntegersPrintAlike(j, js);
    LanguagesAgree(j, js);
  }

  /** Two keys that the languages order differently, so the agreement does need its condition. */
  lemma CrossedKeysExist(js: Json -> Json)
    requires NumberPrinter(js)
    ensures var j := Obj([Member("\U{FF61}", Null), Member("\U{1F600}", Null)]);
      DistinctKeys(j) && NumbersAlike(j, js) && CanonicalJson(j) != CanonicalJsonTs(j, js)
  {
    var a, b := Member("\U{FF61}", Null), Member("\U{1F600}", Null);
    var j := Obj([a, b]);
    assert [a, b][1..] == [b] && [b][1..] == [];
    assert Crossed(a.key, b.key);
    assert MeaningMembers([b]) == map[b.key := NullValue];
    assert MeaningMembers([a, b]) == map[b.key := NullValue][a.key := NullValue];
    assert a.key in MeaningMembers([a, b]) && b.key in MeaningMembers([a, b]);
    assert a.key[0] != b.key[0];
    assert a.key !in MeaningMembers([b]);
    assert DistinctKeys(Null) && DistinctMembers([]) && DistinctMembers([b]);
    assert DistinctMembers([a, b]);
    assert DistinctKeys(j);
    LanguagesAgree(j, js);
  }

  /** A float without a fraction, which TypeScript prints without its point. */
  lemma WholeFloatsDiffer(js: Json -> Json, one: FloatText)
    requires NumberPrinter(js) && one == "1.0" && js(Float(one)) == Int(1)
    ensures CanonicalJson(Float(one)) != CanonicalJsonTs(Float(one), js)
  {
    LanguagesAgree(Float(one), js);
  }
}
