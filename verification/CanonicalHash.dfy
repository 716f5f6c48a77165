/** The typed encoder of research_contracts/canonical_hash.py, proved to tell values apart. */
module CanonicalHash {
  import opened Wrappers
  import opened Sorting
  import opened Strings
  import opened CanonicalJson

  /** A raw identity value. Finite floats are known by their exact hex text, finite decimals by their
      str, dates by their isoformat; None stands for the non-finite ones. Dict entries and set members
      are listed in iteration order; a key that is not a str is None. */
  datatype Value =
    | NoneValue
    | BoolValue(b: bool)
    | IntValue(i: int)
    | FloatValue(hex: Option<string>)
    | DecimalValue(text: Option<string>)
    | DateTimeValue(iso: string)
    | DateValue(iso: string)
    | StrValue(s: string)
    | DictValue(entries: seq<Entry>)
    | TupleValue(items: seq<Value>)
    | ListValue(items: seq<Value>)
    | SetValue(items: seq<Value>)
    | OtherValue

  datatype Entry = Entry(key: Option<string>, value: Value)

  datatype EncodeError = NonFinite | NonStringKey | AmbiguousSet | Unsupported

  // ----- encode_canonical -----

  function Node(tag: string, payload: Json): Json {
    JArr([JStr(tag), payload])
  }

  datatype Pair = Pair(key: string, node: Json)

  function ByKey(): (Pair, Pair) -> bool {
    (a: Pair, b: Pair) => StringLe(a.key, b.key)
  }

  function ByText(): (Json, Json) -> bool {
    (a: Json, b: Json) => StringLe(Text(a), Text(b))
  }

  function PairNodes(pairs: seq<Pair>): (nodes: seq<Json>)
    ensures |nodes| == |pairs|
    ensures forall i | 0 <= i < |pairs| :: nodes[i] == JArr([JStr(pairs[i].key), pairs[i].node])
  {
    seq(|pairs|, i requires 0 <= i < |pairs| => JArr([JStr(pairs[i].key), pairs[i].node]))
  }

  /** Two members with the same canonical text next to each other. */
  predicate Ambiguous(members: seq<Json>) {
    exists i | 0 <= i < |members| - 1 :: Text(members[i]) == Text(members[i + 1])
  }

  function Encode(v: Value): Result<Json, EncodeError>
    decreases v, 1
  {
    match v
    case NoneValue => Success(Node("null", JNull))
    case BoolValue(b) => Success(Node("bool", JBool(b)))
    case IntValue(i) => Success(Node("int", JInt(i)))
    case FloatValue(hex) => if hex.None? then Failure(NonFinite) else Success(Node("float", JStr(hex.value)))
    case DecimalValue(text) => if text.None? then Failure(NonFinite) else Success(Node("decimal", JStr(text.value)))
    case DateTimeValue(iso) => Success(Node("datetime", JStr(iso)))
    case DateValue(iso) => Success(Node("date", JStr(iso)))
    case StrValue(s) => Success(Node("str", JStr(s)))
    case DictValue(entries) =>
      (match EncodeEntries(entries)
       case Failure(e) => Failure(e)
       case Success(pairs) => Success(Node("dict", JArr(PairNodes(Sort(pairs, ByKey()))))))
    case TupleValue(items) =>
      (match EncodeAll(items)
       case Failure(e) => Failure(e)
       case Success(nodes) => Success(Node("tuple", JArr(nodes))))
    case ListValue(items) =>
      (match EncodeAll(items)
       case Failure(e) => Failure(e)
       case Success(nodes) => Success(Node("list", JArr(nodes))))
    case SetValue(items) =>
      (match EncodeAll(items)
       case Failure(e) => Failure(e)
       case Success(nodes) =>
         var members := Sort(nodes, ByText());
         if Ambiguous(members) then Failure(AmbiguousSet) else Success(Node("set", JArr(members))))
    case OtherValue => Failure(Unsupported)
  }

  function EncodeAll(items: seq<Value>): (r: Result<seq<Json>, EncodeError>)
    ensures r.Success? ==> |r.value| == |items|
    ensures r.Success? ==> forall i | 0 <= i < |items| :: Encode(items[i]) == Success(r.value[i])
    decreases items, 0
  {
    if items == [] then Success([])
    else
      match Encode(items[0])
      case Failure(e) => Failure(e)
      case Success(node) =>
        match EncodeAll(items[1..])
        case Failure(e) => Failure(e)
        case Success(nodes) => Success([node] + nodes)
  }

  function EncodeEntry(e: Entry): (r: Result<Pair, EncodeError>)
    decreases e, 1
  {
    if e.key.None? then Failure(NonStringKey)
    else
      match Encode(e.value)
      case Failure(error) => Failure(error)
      case Success(node) => Success(Pair(e.key.value, node))
  }

  function EncodeEntries(entries: seq<Entry>): (r: Result<seq<Pair>, EncodeError>)
    ensures r.Success? ==> |r.value| == |entries|
    ensures r.Success? ==> forall i | 0 <= i < |entries| :: EncodeEntry(entries[i]) == Success(r.value[i])
    decreases entries, 0
  {
    if entries == [] then Success([])
    else
      match EncodeEntry(entries[0])
      case Failure(e) => Failure(e)
      case Success(pair) =>
        match EncodeEntries(entries[1..])
        case Failure(e) => Failure(e)
        case Success(pairs) => Success([pair] + pairs)
  }

  // ----- sameness of raw values -----

  /** A dict has one entry per key; everything else is unconstrained. */
  predicate ProperValue(v: Value)
    decreases v
  {
    match v
    case DictValue(entries) =>
      && (forall i, j | 0 <= i < j < |entries| :: entries[i].key != entries[j].key)
      && forall i | 0 <= i < |entries| :: ProperValue(entries[i].value)
    case TupleValue(items) => forall i | 0 <= i < |items| :: ProperValue(items[i])
    case ListValue(items) => forall i | 0 <= i < |items| :: ProperValue(items[i])
    case SetValue(items) => forall i | 0 <= i < |items| :: ProperValue(items[i])
    case _ => true
  }

  /** The same typed value: the type counts, list and tuple order counts, dict and set order does not. */
  ghost predicate Same(v: Value, w: Value)
    decreases v, 0
  {
    match v
    case DictValue(es) => w.DictValue? && SameEntries(es, w.entries)
    case TupleValue(xs) => w.TupleValue? && SameLists(xs, w.items)
    case ListValue(xs) => w.ListValue? && SameLists(xs, w.items)
    case SetValue(xs) => w.SetValue? && SameSets(xs, w.items)
    case _ => v == w
  }

  ghost predicate SameLists(xs: seq<Value>, ys: seq<Value>)
    decreases xs, 0
  {
    |xs| == |ys| && forall i | 0 <= i < |xs| :: Same(xs[i], ys[i])
  }

  /** Each member of one has a counterpart in the other. */
  ghost predicate SameSets(xs: seq<Value>, ys: seq<Value>)
    decreases xs, 1
  {
    && (forall i | 0 <= i < |xs| :: InRight(xs[i], ys))
    && (forall j | 0 <= j < |ys| :: InLeft(xs, ys[j]))
  }

  ghost predicate InRight(x: Value, ys: seq<Value>)
    decreases x, 1
  {
    exists j :: 0 <= j < |ys| && Same(x, ys[j])
  }

  ghost predicate InLeft(xs: seq<Value>, y: Value)
    decreases xs, 0
  {
    exists i :: 0 <= i < |xs| && Same(xs[i], y)
  }

  ghost predicate SameEntries(es: seq<Entry>, fs: seq<Entry>)
    decreases es, 1
  {
    && (forall i | 0 <= i < |es| :: EntryInRight(es[i], fs))
    && (forall j | 0 <= j < |fs| :: EntryInLeft(es, fs[j]))
  }

  ghost predicate EntryInRight(e: Entry, fs: seq<Entry>)
    decreases e, 1
  {
    exists j :: 0 <= j < |fs| && SameEntry(e, fs[j])
  }

  ghost predicate EntryInLeft(es: seq<Entry>, f: Entry)
    decreases es, 0
  {
    exists i :: 0 <= i < |es| && SameEntry(es[i], f)
  }

  ghost predicate SameEntry(e: Entry, f: Entry)
    decreases e, 0
  {
    e.key == f.key && Same(e.value, f.value)
  }

  // ----- the orders used for sorting -----

  lemma {:induction false} ByTextOrder()
    ensures TotalPreorder(ByText()) && Antisymmetric(ByText())
  {
    StringOrder();
    forall a: Json, b: Json | ByText()(a, b) && ByText()(b, a)
      ensures a == b
    {
      TextInjective(a, b);
    }
  }

  lemma {:induction false} ByKeyOrder()
    ensures TotalPreorder(ByKey())
  {
    StringOrder();
  }

  /** A sorted list of members is ambiguous exactly when some member occurs twice. */
  lemma {:induction false} AmbiguousMeaning(nodes: seq<Json>)
    ensures Ambiguous(Sort(nodes, ByText())) <==> !Distinct(Sort(nodes, ByText()))
  {
    var ms := Sort(nodes, ByText());
    ByTextOrder();
    SortSorts(nodes, ByText());
    if i :| 0 <= i < |ms| - 1 && Text(ms[i]) == Text(ms[i + 1]) {
      TextInjective(ms[i], ms[i + 1]);
    }
    if i, j :| 0 <= i < j < |ms| && ms[i] == ms[j] {
      RepeatIsAdjacent(ms, i, j);
    }
  }

  lemma {:induction false} RepeatIsAdjacent(ms: seq<Json>, i: nat, j: nat)
    requires Sorted(ms, ByText()) && i < j < |ms| && ms[i] == ms[j]
    ensures Ambiguous(ms)
  {
    if i + 1 < j {
      StringLeTotal(Text(ms[i]), Text(ms[i + 1]));
      assert ByText()(ms[i], ms[i + 1]) && ByText()(ms[i + 1], ms[j]);
    }
    assert Text(ms[i]) == Text(ms[i + 1]);
  }

  /** Two sorted, unambiguous member lists are equal exactly when they have the same members. */
  lemma {:induction false} SortedMembersEqual(xs: seq<Json>, ys: seq<Json>)
    requires !Ambiguous(Sort(xs, ByText())) && !Ambiguous(Sort(ys, ByText()))
    ensures Sort(xs, ByText()) == Sort(ys, ByText()) <==> forall x :: x in xs <==> x in ys
  {
    ByTextOrder();
    SortSorts(xs, ByText());
    SortSorts(ys, ByText());
    SortPermutes(xs, ByText());
    SortPermutes(ys, ByText());
    AmbiguousMeaning(xs);
    AmbiguousMeaning(ys);
    if forall x :: x in xs <==> x in ys {
      SortedUnique(Sort(xs, ByText()), Sort(ys, ByText()), ByText());
    }
  }

  // ----- sameness is exactly equality of encodings -----

  function Tag(v: Value): string {
    match v
    case NoneValue => "null"
    case BoolValue(_) => "bool"
    case IntValue(_) => "int"
    case FloatValue(_) => "float"
    case DecimalValue(_) => "decimal"
    case DateTimeValue(_) => "datetime"
    case DateValue(_) => "date"
    case StrValue(_) => "str"
    case DictValue(_) => "dict"
    case TupleValue(_) => "tuple"
    case ListValue(_) => "list"
    case SetValue(_) => "set"
    case OtherValue => ""
  }

  predicate SameKind(v: Value, w: Value) {
    || (v.NoneValue? && w.NoneValue?) || (v.BoolValue? && w.BoolValue?) || (v.IntValue? && w.IntValue?)
    || (v.FloatValue? && w.FloatValue?) || (v.DecimalValue? && w.DecimalValue?)
    || (v.DateTimeValue? && w.DateTimeValue?) || (v.DateValue? && w.DateValue?) || (v.StrValue? && w.StrValue?)
    || (v.DictValue? && w.DictValue?) || (v.TupleValue? && w.TupleValue?) || (v.ListValue? && w.ListValue?)
    || (v.SetValue? && w.SetValue?) || (v.OtherValue? && w.OtherValue?)
  }

  /** Length, first and second letter tell the tags apart. */
  function TagCode(t: string): nat {
    if |t| < 2 then 0 else 1_000_000 * |t| + 1_000 * (t[0] as int) + t[1] as int
  }

  lemma {:induction false} TagsTellKindsApart(v: Value, w: Value)
    requires Tag(v) == Tag(w)
    ensures SameKind(v, w)
  {
    assert TagCode(Tag(v)) == TagCode(Tag(w));
  }

  lemma {:induction false} EncodedTag(v: Value) returns (payload: Json)
    requires Encode(v).Success?
    ensures Encode(v).value == Node(Tag(v), payload)
  {
    payload := if IsLeaf(v) then Payload(v) else Encode(v).value.items[1];
  }

  lemma {:induction false} KindsMustAgree(v: Value, w: Value)
    requires Encode(v).Success? && Encode(w).Success? && Encode(v).value == Encode(w).value
    ensures SameKind(v, w)
  {
    var p := EncodedTag(v);
    var q := EncodedTag(w);
    assert Node(Tag(v), p).items[0] == Node(Tag(w), q).items[0];
    TagsTellKindsApart(v, w);
  }

  lemma {:induction false} PayloadsDecide(tag: string, p: Json, q: Json)
    ensures Node(tag, p) == Node(tag, q) <==> p == q
  {
    assert Node(tag, p).items[1] == p && Node(tag, q).items[1] == q;
  }

  /** Two supported values encode to the same AST exactly when they are the same typed value. */
  lemma {:induction false} EncodeSame(v: Value, w: Value)
    requires ProperValue(v) && ProperValue(w) && Encode(v).Success? && Encode(w).Success?
    ensures Encode(v).value == Encode(w).value <==> Same(v, w)
    decreases v, 1
  {
    if !SameKind(v, w) {
      if Encode(v).value == Encode(w).value {
        KindsMustAgree(v, w);
      }
    } else {
      match v
      case DictValue(es) => EncodeSameDicts(es, w.entries);
      case TupleValue(xs) =>
        EncodeSameLists(xs, w.items);
        PayloadsDecide("tuple", JArr(EncodeAll(xs).value), JArr(EncodeAll(w.items).value));
      case ListValue(xs) =>
        EncodeSameLists(xs, w.items);
        PayloadsDecide("list", JArr(EncodeAll(xs).value), JArr(EncodeAll(w.items).value));
      case SetValue(xs) => EncodeSameSets(xs, w.items);
      case _ => EncodeSameLeaves(v, w);
    }
  }

  predicate IsLeaf(v: Value) {
    !v.DictValue? && !v.TupleValue? && !v.ListValue? && !v.SetValue?
  }

  function Payload(v: Value): Json
    requires IsLeaf(v) && Encode(v).Success?
  {
    match v
    case NoneValue => JNull
    case BoolValue(b) => JBool(b)
    case IntValue(i) => JInt(i)
    case FloatValue(hex) => JStr(hex.value)
    case DecimalValue(text) => JStr(text.value)
    case DateTimeValue(iso) => JStr(iso)
    case DateValue(iso) => JStr(iso)
    case StrValue(s) => JStr(s)
    case _ => JNull
  }

  lemma {:induction false} EncodeSameLeaves(v: Value, w: Value)
    requires SameKind(v, w) && IsLeaf(v) && Encode(v).Success? && Encode(w).Success?
    ensures Encode(v).value == Encode(w).value <==> v == w
  {
    assert Encode(v).value == Node(Tag(v), Payload(v)) && Encode(w).value == Node(Tag(w), Payload(w));
    assert Tag(v) == Tag(w);
    PayloadsDecide(Tag(v), Payload(v), Payload(w));
  }

  lemma {:induction false} EncodeSameLists(xs: seq<Value>, ys: seq<Value>)
    requires (forall i | 0 <= i < |xs| :: ProperValue(xs[i])) && forall i | 0 <= i < |ys| :: ProperValue(ys[i])
    requires EncodeAll(xs).Success? && EncodeAll(ys).Success?
    ensures EncodeAll(xs).value == EncodeAll(ys).value <==> SameLists(xs, ys)
    decreases xs, 0
  {
    var a, b := EncodeAll(xs).value, EncodeAll(ys).value;
    if |xs| == |ys| {
      forall i | 0 <= i < |xs|
        ensures a[i] == b[i] <==> Same(xs[i], ys[i])
      {
        EncodeSame(xs[i], ys[i]);
      }
    }
  }

  lemma {:induction false} EncodeSameSets(xs: seq<Value>, ys: seq<Value>)
    requires (forall i | 0 <= i < |xs| :: ProperValue(xs[i])) && forall i | 0 <= i < |ys| :: ProperValue(ys[i])
    requires Encode(SetValue(xs)).Success? && Encode(SetValue(ys)).Success?
    ensures Encode(SetValue(xs)).value == Encode(SetValue(ys)).value <==> SameSets(xs, ys)
    decreases xs, 0
  {
    var a, b := EncodeAll(xs).value, EncodeAll(ys).value;
    forall i | 0 <= i < |xs|
      ensures InRight(xs[i], ys) <==> a[i] in b
    {
      forall j | 0 <= j < |ys| ensures a[i] == b[j] <==> Same(xs[i], ys[j]) {
        EncodeSame(xs[i], ys[j]);
      }
      InRightMeaning(xs[i], ys, a[i], b);
    }
    forall j | 0 <= j < |ys|
      ensures InLeft(xs, ys[j]) <==> b[j] in a
    {
      forall i | 0 <= i < |xs| ensures a[i] == b[j] <==> Same(xs[i], ys[j]) {
        EncodeSame(xs[i], ys[j]);
      }
      InLeftMeaning(xs, ys[j], a, b[j]);
    }
    SetPayloads(xs, ys, a, b);
  }

  lemma {:induction false} SetPayloads(xs: seq<Value>, ys: seq<Value>, a: seq<Json>, b: seq<Json>)
    requires EncodeAll(xs) == Success(a) && EncodeAll(ys) == Success(b)
    requires Encode(SetValue(xs)).Success? && Encode(SetValue(ys)).Success?
    requires forall i | 0 <= i < |xs| :: InRight(xs[i], ys) <==> a[i] in b
    requires forall j | 0 <= j < |ys| :: InLeft(xs, ys[j]) <==> b[j] in a
    ensures Encode(SetValue(xs)).value == Encode(SetValue(ys)).value <==> SameSets(xs, ys)
  {
    MembersByIndex(a, b);
    SetEncoding(xs, a);
    SetEncoding(ys, b);
    SetNodesEqual(a, b);
  }

  lemma {:induction false} SetEncoding(xs: seq<Value>, a: seq<Json>)
    requires EncodeAll(xs) == Success(a) && Encode(SetValue(xs)).Success?
    ensures !Ambiguous(Sort(a, ByText()))
    ensures Encode(SetValue(xs)).value == Node("set", JArr(Sort(a, ByText())))
  {
  }

  lemma {:induction false} SetNodesEqual(a: seq<Json>, b: seq<Json>)
    requires !Ambiguous(Sort(a, ByText())) && !Ambiguous(Sort(b, ByText()))
    ensures Node("set", JArr(Sort(a, ByText()))) == Node("set", JArr(Sort(b, ByText())))
            <==> forall x :: x in a <==> x in b
  {
    SortedMembersEqual(a, b);
    PayloadsDecide("set", JArr(Sort(a, ByText())), JArr(Sort(b, ByText())));
  }

  lemma {:induction false} InRightMeaning(x: Value, ys: seq<Value>, ax: Json, b: seq<Json>)
    requires |b| == |ys| && forall j | 0 <= j < |ys| :: ax == b[j] <==> Same(x, ys[j])
    ensures InRight(x, ys) <==> ax in b
  {
  }

  lemma {:induction false} InLeftMeaning(xs: seq<Value>, y: Value, a: seq<Json>, node: Json)
    requires |a| == |xs| && forall i | 0 <= i < |xs| :: a[i] == node <==> Same(xs[i], y)
    ensures InLeft(xs, y) <==> node in a
  {
  }

  lemma {:induction false} MembersByIndex<T>(a: seq<T>, b: seq<T>)
    ensures (forall i | 0 <= i < |a| :: a[i] in b) && (forall j | 0 <= j < |b| :: b[j] in a)
            <==> forall x :: x in a <==> x in b
  {
  }

  lemma {:induction false} EncodeSameDicts(es: seq<Entry>, fs: seq<Entry>)
    requires ProperValue(DictValue(es)) && ProperValue(DictValue(fs))
    requires Encode(DictValue(es)).Success? && Encode(DictValue(fs)).Success?
    ensures Encode(DictValue(es)).value == Encode(DictValue(fs)).value <==> SameEntries(es, fs)
    decreases es, 1
  {
    var a, b := EncodeEntries(es).value, EncodeEntries(fs).value;
    EncodeSameEntries(es, fs, a, b);
    DictsDecided(es, fs, a, b);
  }

  lemma {:induction false} EncodeSameEntries(es: seq<Entry>, fs: seq<Entry>, a: seq<Pair>, b: seq<Pair>)
    requires |a| == |es| && |b| == |fs|
    requires forall i | 0 <= i < |es| :: ProperValue(es[i].value) && EncodeEntry(es[i]) == Success(a[i])
    requires forall i | 0 <= i < |fs| :: ProperValue(fs[i].value) && EncodeEntry(fs[i]) == Success(b[i])
    ensures SameEntries(es, fs) <==> forall x :: x in a <==> x in b
    decreases es, 0
  {
    forall i | 0 <= i < |es|
      ensures EntryInRight(es[i], fs) <==> a[i] in b
    {
      forall j | 0 <= j < |fs| ensures a[i] == b[j] <==> SameEntry(es[i], fs[j]) {
        EncodeSameEntry(es[i], fs[j]);
      }
      EntryInRightMeaning(es[i], fs, a[i], b);
    }
    forall j | 0 <= j < |fs|
      ensures EntryInLeft(es, fs[j]) <==> b[j] in a
    {
      forall i | 0 <= i < |es| ensures a[i] == b[j] <==> SameEntry(es[i], fs[j]) {
        EncodeSameEntry(es[i], fs[j]);
      }
      EntryInLeftMeaning(es, fs[j], a, b[j]);
    }
    EntriesMatch(es, fs, a, b);
  }

  lemma {:induction false} DictsDecided(es: seq<Entry>, fs: seq<Entry>, a: seq<Pair>, b: seq<Pair>)
    requires ProperValue(DictValue(es)) && ProperValue(DictValue(fs))
    requires EncodeEntries(es) == Success(a) && EncodeEntries(fs) == Success(b)
    ensures Encode(DictValue(es)).Success? && Encode(DictValue(fs)).Success?
    ensures Encode(DictValue(es)).value == Encode(DictValue(fs)).value <==> forall x :: x in a <==> x in b
  {
    SortedPairsEqual(es, fs, a, b);
    DictEncoding(es, a);
    DictEncoding(fs, b);
    DictNodesEqual(Sort(a, ByKey()), Sort(b, ByKey()));
  }

  lemma {:induction false} EntriesMatch(es: seq<Entry>, fs: seq<Entry>, a: seq<Pair>, b: seq<Pair>)
    requires |a| == |es| && |b| == |fs|
    requires forall i | 0 <= i < |es| :: EntryInRight(es[i], fs) <==> a[i] in b
    requires forall j | 0 <= j < |fs| :: EntryInLeft(es, fs[j]) <==> b[j] in a
    ensures SameEntries(es, fs) <==> forall x :: x in a <==> x in b
  {
    MembersByIndex(a, b);
  }

  lemma {:induction false} DictEncoding(es: seq<Entry>, a: seq<Pair>)
    requires EncodeEntries(es) == Success(a)
    ensures Encode(DictValue(es)) == Success(Node("dict", JArr(PairNodes(Sort(a, ByKey())))))
  {
  }

  lemma {:induction false} DictNodesEqual(p: seq<Pair>, q: seq<Pair>)
    ensures Node("dict", JArr(PairNodes(p))) == Node("dict", JArr(PairNodes(q))) <==> p == q
  {
    PairNodesInjective(p, q);
    PayloadsDecide("dict", JArr(PairNodes(p)), JArr(PairNodes(q)));
  }

  lemma {:induction false} EntryInRightMeaning(e: Entry, fs: seq<Entry>, ae: Pair, b: seq<Pair>)
    requires |b| == |fs| && forall j | 0 <= j < |fs| :: ae == b[j] <==> SameEntry(e, fs[j])
    ensures EntryInRight(e, fs) <==> ae in b
  {
  }

  lemma {:induction false} EntryInLeftMeaning(es: seq<Entry>, f: Entry, a: seq<Pair>, bf: Pair)
    requires |a| == |es| && forall i | 0 <= i < |es| :: a[i] == bf <==> SameEntry(es[i], f)
    ensures EntryInLeft(es, f) <==> bf in a
  {
  }

  lemma {:induction false} EncodeSameEntry(e: Entry, f: Entry)
    requires ProperValue(e.value) && ProperValue(f.value) && EncodeEntry(e).Success? && EncodeEntry(f).Success?
    ensures EncodeEntry(e).value == EncodeEntry(f).value <==> SameEntry(e, f)
    decreases e, 0
  {
    EncodeSame(e.value, f.value);
  }

  lemma {:induction false} PairNodesInjective(ps: seq<Pair>, qs: seq<Pair>)
    ensures PairNodes(ps) == PairNodes(qs) <==> ps == qs
  {
    if PairNodes(ps) == PairNodes(qs) {
      forall i | 0 <= i < |ps|
        ensures ps[i] == qs[i]
      {
        assert PairNodes(ps)[i] == PairNodes(qs)[i];
        assert PairNodes(ps)[i].items[0].s == ps[i].key && PairNodes(ps)[i].items[1] == ps[i].node;
        assert PairNodes(qs)[i].items[0].s == qs[i].key && PairNodes(qs)[i].items[1] == qs[i].node;
      }
    }
  }

  /** Distinct keys make the sorted entry list a function of the set of entries. */
  lemma {:induction false} SortedPairsEqual(es: seq<Entry>, fs: seq<Entry>, a: seq<Pair>, b: seq<Pair>)
    requires ProperValue(DictValue(es)) && ProperValue(DictValue(fs))
    requires EncodeEntries(es) == Success(a) && EncodeEntries(fs) == Success(b)
    ensures Sort(a, ByKey()) == Sort(b, ByKey()) <==> forall x :: x in a <==> x in b
  {
    KeysDistinct(es, a);
    KeysDistinct(fs, b);
    SortedIsStrict(a);
    SortedIsStrict(b);
    SortedPairsDecide(a, b, Sort(a, ByKey()), Sort(b, ByKey()));
  }

  lemma {:induction false} SortedPairsDecide(a: seq<Pair>, b: seq<Pair>, p: seq<Pair>, q: seq<Pair>)
    requires StrictKeys(p) && StrictKeys(q)
    requires (forall x :: x in p <==> x in a) && forall x :: x in q <==> x in b
    ensures p == q <==> forall x :: x in a <==> x in b
  {
    if forall x :: x in a <==> x in b {
      StrictUnique(p, q);
    }
  }

  /** Strictly increasing keys. */
  ghost predicate StrictKeys(ps: seq<Pair>) {
    forall i, j | 0 <= i < j < |ps| :: StringLe(ps[i].key, ps[j].key) && ps[i].key != ps[j].key
  }

  ghost predicate DistinctKeys(ps: seq<Pair>) {
    forall i, j | 0 <= i < j < |ps| :: ps[i].key != ps[j].key
  }

  lemma {:induction false} KeysDistinct(es: seq<Entry>, a: seq<Pair>)
    requires ProperValue(DictValue(es)) && EncodeEntries(es) == Success(a)
    ensures DistinctKeys(a)
  {
    forall i, j | 0 <= i < j < |a|
      ensures a[i].key != a[j].key
    {
      assert EncodeEntry(es[i]) == Success(a[i]) && EncodeEntry(es[j]) == Success(a[j]);
    }
  }

  lemma {:induction false} SortedIsStrict(a: seq<Pair>)
    requires DistinctKeys(a)
    ensures StrictKeys(Sort(a, ByKey()))
    ensures forall x :: x in Sort(a, ByKey()) <==> x in a
  {
    var s := Sort(a, ByKey());
    ByKeyOrder();
    SortSorts(a, ByKey());
    SortPermutes(a, ByKey());
    assert Distinct(a);
    DistinctByMultiset(a, s);
    forall i, j | 0 <= i < j < |s|
      ensures StringLe(s[i].key, s[j].key) && s[i].key != s[j].key
    {
      assert ByKey()(s[i], s[j]);
      assert s[i] in a && s[j] in a;
    }
  }

  lemma {:induction false} StrictUnique(ps: seq<Pair>, qs: seq<Pair>)
    requires StrictKeys(ps) && StrictKeys(qs) && forall x :: x in ps <==> x in qs
    ensures ps == qs
  {
    HasMember(qs);
    HasMember(ps);
    if ps != [] && qs != [] {
      assert ps[0] in qs && qs[0] in ps;
      var i :| 0 <= i < |qs| && qs[i] == ps[0];
      var j :| 0 <= j < |ps| && ps[j] == qs[0];
      StringLeTotal(ps[0].key, qs[0].key);
      assert ps[0] == qs[0];
      forall x
        ensures x in ps[1..] <==> x in qs[1..]
      {
        TailMembers(ps, x);
        TailMembers(qs, x);
      }
      StrictUnique(ps[1..], qs[1..]);
    }
  }

  // ----- canonical_json, the hashes and the experiment identity -----

  /** canonical_json: the text of a raw value's AST. */
  function CanonicalText(v: Value): Result<string, EncodeError> {
    match Encode(v)
    case Failure(e) => Failure(e)
    case Success(ast) => Success(Text(ast))
  }

  /** The central claim: equal text if and only if the same typed value. */
  lemma {:induction false} CanonicalTextDecides(v: Value, w: Value)
    requires ProperValue(v) && ProperValue(w) && CanonicalText(v).Success? && CanonicalText(w).Success?
    ensures CanonicalText(v) == CanonicalText(w) <==> Same(v, w)
  {
    EncodeSame(v, w);
    TextInjective(Encode(v).value, Encode(w).value);
  }

  /** A set is rejected as ambiguous exactly when two of its members are the same typed value. */
  lemma {:induction false} AmbiguousSetDecides(items: seq<Value>)
    requires (forall i | 0 <= i < |items| :: ProperValue(items[i])) && EncodeAll(items).Success?
    ensures Encode(SetValue(items)) == Failure(AmbiguousSet) <==>
            exists i, j :: 0 <= i < j < |items| && Same(items[i], items[j])
  {
    var nodes := EncodeAll(items).value;
    AmbiguousRepeats(nodes);
    SetRejected(items, nodes);
    RepeatsAreSame(items, nodes);
  }

  lemma {:induction false} SetRejected(items: seq<Value>, nodes: seq<Json>)
    requires EncodeAll(items) == Success(nodes)
    ensures Encode(SetValue(items)) == Failure(AmbiguousSet) <==> Ambiguous(Sort(nodes, ByText()))
  {
    var members := Sort(nodes, ByText());
    if Ambiguous(members) {
      assert Encode(SetValue(items)) == Failure(AmbiguousSet);
    } else {
      assert Encode(SetValue(items)) == Success(Node("set", JArr(members)));
    }
  }

  lemma {:induction false} RepeatsAreSame(items: seq<Value>, nodes: seq<Json>)
    requires |nodes| == |items|
    requires forall i | 0 <= i < |items| :: ProperValue(items[i]) && Encode(items[i]) == Success(nodes[i])
    ensures !Distinct(nodes) <==> exists i, j :: 0 <= i < j < |items| && Same(items[i], items[j])
  {
    forall i, j | 0 <= i < j < |items|
      ensures Same(items[i], items[j]) <==> nodes[i] == nodes[j]
    {
      EncodeSame(items[i], items[j]);
    }
  }

  lemma {:induction false} AmbiguousRepeats(nodes: seq<Json>)
    ensures Ambiguous(Sort(nodes, ByText())) <==> !Distinct(nodes)
  {
    AmbiguousMeaning(nodes);
    SortPermutes(nodes, ByText());
    if Distinct(nodes) {
      DistinctByMultiset(nodes, Sort(nodes, ByText()));
    }
    if Distinct(Sort(nodes, ByText())) {
      DistinctByMultiset(Sort(nodes, ByText()), nodes);
    }
  }
}
