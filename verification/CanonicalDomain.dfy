/** What the encoder of research_contracts/canonical_hash.py accepts, which error it raises, and how to read a node. */
module CanonicalDomain {
  import opened Wrappers
  import opened Sorting
  import opened Strings
  import opened CanonicalJson
  import opened CanonicalHash

  // ----- which values are supported -----

  ghost predicate Supported(v: Value)
    decreases v, 0
  {
    match v
    case FloatValue(hex) => hex.Some?
    case DecimalValue(text) => text.Some?
    case DictValue(entries) => forall i | 0 <= i < |entries| :: SupportedEntry(entries[i])
    case TupleValue(items) => forall i | 0 <= i < |items| :: Supported(items[i])
    case ListValue(items) => forall i | 0 <= i < |items| :: Supported(items[i])
    case SetValue(items) => (forall i | 0 <= i < |items| :: Supported(items[i])) && !Repeats(items)
    case OtherValue => false
    case _ => true
  }

  ghost predicate SupportedEntry(e: Entry)
    decreases e, 0
  {
    e.key.Some? && Supported(e.value)
  }

  /** Two members are the same typed value. */
  ghost predicate Repeats(items: seq<Value>) {
    exists i, j :: 0 <= i < j < |items| && Same(items[i], items[j])
  }

  /** e is the first fault met when the value is walked in order, a set's members before their sameness. */
  ghost predicate Faults(v: Value, e: EncodeError)
    decreases v, 1
  {
    match v
    case FloatValue(hex) => hex.None? && e == NonFinite
    case DecimalValue(text) => text.None? && e == NonFinite
    case DictValue(entries) =>
      exists i :: 0 <= i < |entries| && FaultyEntry(entries[i], e)
        && forall j | 0 <= j < i :: SupportedEntry(entries[j])
    case TupleValue(items) => FaultyItems(items, e)
    case ListValue(items) => FaultyItems(items, e)
    case SetValue(items) =>
      || FaultyItems(items, e)
      || ((forall i | 0 <= i < |items| :: Supported(items[i])) && Repeats(items) && e == AmbiguousSet)
    case OtherValue => e == Unsupported
    case _ => false
  }

  ghost predicate FaultyItems(items: seq<Value>, e: EncodeError)
    decreases items, 0
  {
    exists i :: 0 <= i < |items| && Faults(items[i], e) && forall j | 0 <= j < i :: Supported(items[j])
  }

  ghost predicate FaultyEntry(entry: Entry, e: EncodeError)
    decreases entry, 0
  {
    if entry.key.None? then e == NonStringKey else Faults(entry.value, e)
  }

  /** The encoder accepts exactly the supported values, and raises the first fault of any other. */
  lemma {:induction false} EncodeExactly(v: Value)
    requires ProperValue(v)
    ensures Encode(v).Success? <==> Supported(v)
    ensures forall e :: Encode(v) == Failure(e) <==> Faults(v, e)
    decreases v, 1
  {
    match v
    case DictValue(entries) => EncodeEntriesExactly(entries);
    case TupleValue(items) => EncodeAllExactly(items);
    case ListValue(items) => EncodeAllExactly(items);
    case SetValue(items) => EncodeSetExactly(items);
    case _ => LeafExactly(v);
  }

  lemma {:induction false} LeafExactly(v: Value)
    requires IsLeaf(v)
    ensures Encode(v).Success? <==> Supported(v)
    ensures forall e :: Encode(v) == Failure(e) <==> Faults(v, e)
  {
  }

  lemma {:induction false} EncodeSetExactly(items: seq<Value>)
    requires forall i | 0 <= i < |items| :: ProperValue(items[i])
    ensures Encode(SetValue(items)).Success? <==> Supported(SetValue(items))
    ensures forall e :: Encode(SetValue(items)) == Failure(e) <==> Faults(SetValue(items), e)
    decreases items, 1
  {
    EncodeAllExactly(items);
    SetOutcome(items);
    if EncodeAll(items).Success? {
      AmbiguousSetDecides(items);
    }
    SetVerdict(items, EncodeAll(items), Encode(SetValue(items)));
  }

  lemma {:induction false} SetVerdict(items: seq<Value>, all: Result<seq<Json>, EncodeError>,
                                      r: Result<Json, EncodeError>)
    requires all.Success? <==> forall i | 0 <= i < |items| :: Supported(items[i])
    requires forall e :: all == Failure(e) <==> FaultyItems(items, e)
    requires all.Failure? ==> r == Failure(all.error)
    requires all.Success? ==> r.Success? || r == Failure(AmbiguousSet)
    requires all.Success? ==> (r == Failure(AmbiguousSet) <==> Repeats(items))
    ensures r.Success? <==> Supported(SetValue(items))
    ensures forall e :: r == Failure(e) <==> Faults(SetValue(items), e)
  {
  }

  lemma {:induction false} SetOutcome(items: seq<Value>)
    ensures EncodeAll(items).Failure? ==> Encode(SetValue(items)) == Failure(EncodeAll(items).error)
    ensures EncodeAll(items).Success? ==>
              Encode(SetValue(items)).Success? || Encode(SetValue(items)) == Failure(AmbiguousSet)
  {
  }

  lemma {:induction false} EncodeAllExactly(items: seq<Value>)
    requires forall i | 0 <= i < |items| :: ProperValue(items[i])
    ensures EncodeAll(items).Success? <==> forall i | 0 <= i < |items| :: Supported(items[i])
    ensures forall e :: EncodeAll(items) == Failure(e) <==> FaultyItems(items, e)
    decreases items, 0
  {
    if items != [] {
      EncodeExactly(items[0]);
      EncodeAllExactly(items[1..]);
      SupportedItems(items);
      forall e
        ensures FaultyItems(items, e) <==> Faults(items[0], e) || (Supported(items[0]) && FaultyItems(items[1..], e))
      {
        FirstFaultyItem(items, e);
      }
    }
  }

  lemma {:induction false} SupportedItems(items: seq<Value>)
    requires items != []
    ensures (forall i | 0 <= i < |items| :: Supported(items[i]))
            <==> Supported(items[0]) && forall i | 0 <= i < |items[1..]| :: Supported(items[1..][i])
  {
    if forall i | 0 <= i < |items[1..]| :: Supported(items[1..][i]) {
      forall i | 0 < i < |items|
        ensures Supported(items[i])
      {
        assert items[i] == items[1..][i - 1];
      }
    }
  }

  lemma {:induction false} FirstFaultyItem(items: seq<Value>, e: EncodeError)
    requires items != []
    ensures FaultyItems(items, e) <==> Faults(items[0], e) || (Supported(items[0]) && FaultyItems(items[1..], e))
  {
    if FaultyItems(items, e) {
      FaultIsFirstOrLater(items, e);
    }
    if Supported(items[0]) && FaultyItems(items[1..], e) {
      LaterFault(items, e);
    }
  }

  lemma {:induction false} FaultIsFirstOrLater(items: seq<Value>, e: EncodeError)
    requires FaultyItems(items, e)
    ensures Faults(items[0], e) || (Supported(items[0]) && FaultyItems(items[1..], e))
  {
    var i :| 0 <= i < |items| && Faults(items[i], e) && forall j | 0 <= j < i :: Supported(items[j]);
    if i > 0 {
      assert items[1..][i - 1] == items[i];
    }
  }

  lemma {:induction false} LaterFault(items: seq<Value>, e: EncodeError)
    requires items != [] && Supported(items[0]) && FaultyItems(items[1..], e)
    ensures FaultyItems(items, e)
  {
    var rest := items[1..];
    var i :| 0 <= i < |rest| && Faults(rest[i], e) && forall j | 0 <= j < i :: Supported(rest[j]);
    assert items[i + 1] == rest[i];
    forall j | 0 <= j < i + 1
      ensures Supported(items[j])
    {
      assert j > 0 ==> items[j] == rest[j - 1];
    }
  }

  ghost predicate FaultyEntries(entries: seq<Entry>, e: EncodeError) {
    exists i :: 0 <= i < |entries| && FaultyEntry(entries[i], e) && forall j | 0 <= j < i :: SupportedEntry(entries[j])
  }

  lemma {:induction false} EncodeEntryExactly(entry: Entry)
    requires ProperValue(entry.value)
    ensures EncodeEntry(entry).Success? <==> SupportedEntry(entry)
    ensures forall e :: EncodeEntry(entry) == Failure(e) <==> FaultyEntry(entry, e)
    decreases entry, 0
  {
    EncodeExactly(entry.value);
  }

  lemma {:induction false} EncodeEntriesExactly(entries: seq<Entry>)
    requires forall i | 0 <= i < |entries| :: ProperValue(entries[i].value)
    ensures EncodeEntries(entries).Success? <==> forall i | 0 <= i < |entries| :: SupportedEntry(entries[i])
    ensures forall e :: EncodeEntries(entries) == Failure(e) <==> FaultyEntries(entries, e)
    decreases entries, 0
  {
    if entries != [] {
      EncodeEntryExactly(entries[0]);
      EncodeEntriesExactly(entries[1..]);
      SupportedEntries(entries);
      forall e
        ensures FaultyEntries(entries, e)
                <==> FaultyEntry(entries[0], e) || (SupportedEntry(entries[0]) && FaultyEntries(entries[1..], e))
      {
        FirstFaultyEntry(entries, e);
      }
    }
  }

  lemma {:induction false} SupportedEntries(entries: seq<Entry>)
    requires entries != []
    ensures (forall i | 0 <= i < |entries| :: SupportedEntry(entries[i]))
            <==> SupportedEntry(entries[0]) && forall i | 0 <= i < |entries[1..]| :: SupportedEntry(entries[1..][i])
  {
    if forall i | 0 <= i < |entries[1..]| :: SupportedEntry(entries[1..][i]) {
      forall i | 0 < i < |entries|
        ensures SupportedEntry(entries[i])
      {
        assert entries[i] == entries[1..][i - 1];
      }
    }
  }

  lemma {:induction false} FirstFaultyEntry(entries: seq<Entry>, e: EncodeError)
    requires entries != []
    ensures FaultyEntries(entries, e)
            <==> FaultyEntry(entries[0], e) || (SupportedEntry(entries[0]) && FaultyEntries(entries[1..], e))
  {
    if FaultyEntries(entries, e) {
      var i :| 0 <= i < |entries| && FaultyEntry(entries[i], e) && forall j | 0 <= j < i :: SupportedEntry(entries[j]);
      if i > 0 {
        assert entries[1..][i - 1] == entries[i];
      }
    }
    if SupportedEntry(entries[0]) && FaultyEntries(entries[1..], e) {
      var rest := entries[1..];
      var i :| 0 <= i < |rest| && FaultyEntry(rest[i], e) && forall j | 0 <= j < i :: SupportedEntry(rest[j]);
      assert entries[i + 1] == rest[i];
      forall j | 0 <= j < i + 1
        ensures SupportedEntry(entries[j])
      {
        assert j > 0 ==> entries[j] == rest[j - 1];
      }
    }
  }

  // ----- reading a node back, by the table of tags -----

  function Decode(j: Json): Option<Value>
    decreases j, 1
  {
    if j.JArr? && |j.items| == 2 && j.items[0].JStr? then DecodePayload(j.items[0].s, j.items[1]) else None
  }

  function DecodePayload(tag: string, p: Json): Option<Value>
    decreases p, 2
  {
    if p.JNull? then (if tag == "null" then Some(NoneValue) else None)
    else if p.JBool? then (if tag == "bool" then Some(BoolValue(p.b)) else None)
    else if p.JInt? then (if tag == "int" then Some(IntValue(p.i)) else None)
    else if p.JStr? then
      (if tag == "float" then Some(FloatValue(Some(p.s)))
       else if tag == "decimal" then Some(DecimalValue(Some(p.s)))
       else if tag == "datetime" then Some(DateTimeValue(p.s))
       else if tag == "date" then Some(DateValue(p.s))
       else if tag == "str" then Some(StrValue(p.s))
       else None)
    else if tag == "dict" then
      (match DecodeEntries(p.items) case None => None case Some(entries) => Some(DictValue(entries)))
    else
      match DecodeAll(p.items)
      case None => None
      case Some(items) =>
        if tag == "tuple" then Some(TupleValue(items))
        else if tag == "list" then Some(ListValue(items))
        else if tag == "set" then Some(SetValue(items))
        else None
  }

  function DecodeAll(nodes: seq<Json>): (r: Option<seq<Value>>)
    ensures r.Some? ==> |r.value| == |nodes| && forall i | 0 <= i < |nodes| :: Decode(nodes[i]) == Some(r.value[i])
    ensures r.None? ==> exists i :: 0 <= i < |nodes| && Decode(nodes[i]).None?
    decreases nodes, 0
  {
    if nodes == [] then Some([])
    else
      match (Decode(nodes[0]), DecodeAll(nodes[1..]))
      case (Some(v), Some(vs)) => Some([v] + vs)
      case _ => None
  }

  function DecodeEntry(j: Json): Option<Entry>
    decreases j, 0
  {
    if j.JArr? && |j.items| == 2 && j.items[0].JStr? then
      match Decode(j.items[1])
      case None => None
      case Some(v) => Some(Entry(Some(j.items[0].s), v))
    else None
  }

  function DecodeEntries(nodes: seq<Json>): (r: Option<seq<Entry>>)
    ensures r.Some? ==> |r.value| == |nodes| && forall i | 0 <= i < |nodes| :: DecodeEntry(nodes[i]) == Some(r.value[i])
    ensures r.None? ==> exists i :: 0 <= i < |nodes| && DecodeEntry(nodes[i]).None?
    decreases nodes, 0
  {
    if nodes == [] then Some([])
    else
      match (DecodeEntry(nodes[0]), DecodeEntries(nodes[1..]))
      case (Some(e), Some(es)) => Some([e] + es)
      case _ => None
  }

  /** Reading the encoding of a supported value gives the same typed value. */
  lemma {:induction false} DecodeEncoded(v: Value)
    requires Encode(v).Success?
    ensures Decode(Encode(v).value).Some? && Same(v, Decode(Encode(v).value).value)
    decreases v, 1
  {
    match v
    case DictValue(entries) => DecodeDict(entries);
    case TupleValue(items) => DecodeItems(items, EncodeAll(items).value);
    case ListValue(items) => DecodeItems(items, EncodeAll(items).value);
    case SetValue(items) => DecodeSet(items);
    case _ => DecodeLeaf(v);
  }

  lemma {:induction false} DecodeLeaf(v: Value)
    requires IsLeaf(v) && Encode(v).Success?
    ensures Decode(Encode(v).value) == Some(v)
  {
  }

  lemma {:induction false} DecodeItems(items: seq<Value>, nodes: seq<Json>)
    requires |nodes| == |items| && forall i | 0 <= i < |items| :: Encode(items[i]) == Success(nodes[i])
    ensures forall i | 0 <= i < |items| :: Decode(nodes[i]).Some? && Same(items[i], Decode(nodes[i]).value)
    ensures DecodeAll(nodes).Some? && SameLists(items, DecodeAll(nodes).value)
    decreases items, 0
  {
    forall i | 0 <= i < |items|
      ensures Decode(nodes[i]).Some? && Same(items[i], Decode(nodes[i]).value)
    {
      DecodeEncoded(items[i]);
    }
  }

  lemma {:induction false} DecodeSet(items: seq<Value>)
    requires Encode(SetValue(items)).Success?
    ensures Decode(Encode(SetValue(items)).value).Some?
    ensures Same(SetValue(items), Decode(Encode(SetValue(items)).value).value)
    decreases items, 1
  {
    var nodes := EncodeAll(items).value;
    var members := Sort(nodes, ByText());
    DecodeItems(items, nodes);
    SortPermutes(nodes, ByText());
    MembersDecode(items, nodes, members);
    DecodeSetNode(members);
  }

  lemma {:induction false} DecodeSetNode(members: seq<Json>)
    requires DecodeAll(members).Some?
    ensures Decode(Node("set", JArr(members))) == Some(SetValue(DecodeAll(members).value))
  {
    assert Node("set", JArr(members)).items[1] == JArr(members);
  }

  lemma {:induction false} MembersDecode(items: seq<Value>, nodes: seq<Json>, members: seq<Json>)
    requires |nodes| == |items| && multiset(members) == multiset(nodes)
    requires forall i | 0 <= i < |items| :: Decode(nodes[i]).Some? && Same(items[i], Decode(nodes[i]).value)
    ensures DecodeAll(members).Some? && SameSets(items, DecodeAll(members).value)
  {
    SameMembers(nodes, members);
    var ws := DecodeAll(members);
    forall i | 0 <= i < |items|
      ensures ws.Some? ==> InRight(items[i], ws.value)
    {
      assert nodes[i] in members;
      var k :| 0 <= k < |members| && members[k] == nodes[i];
      if ws.Some? {
        assert Decode(members[k]) == Some(ws.value[k]);
      }
    }
    forall k | 0 <= k < |members|
      ensures Decode(members[k]).Some? && (ws.Some? ==> InLeft(items, ws.value[k]))
    {
      assert members[k] in nodes;
      var i :| 0 <= i < |nodes| && nodes[i] == members[k];
      if ws.Some? {
        assert Decode(members[k]) == Some(ws.value[k]) && Same(items[i], ws.value[k]);
      }
    }
  }

  lemma {:induction false} SameMembers<T>(a: seq<T>, b: seq<T>)
    requires multiset(a) == multiset(b)
    ensures forall x :: x in a <==> x in b
  {
    forall x
      ensures x in a <==> x in b
    {
      assert x in multiset(a) <==> x in multiset(b);
    }
  }

  lemma {:induction false} DecodeDict(entries: seq<Entry>)
    requires Encode(DictValue(entries)).Success?
    ensures Decode(Encode(DictValue(entries)).value).Some?
    ensures Same(DictValue(entries), Decode(Encode(DictValue(entries)).value).value)
    decreases entries, 1
  {
    var pairs := EncodeEntries(entries).value;
    var sorted := Sort(pairs, ByKey());
    SortPermutes(pairs, ByKey());
    DecodePairs(entries, pairs);
    PairsDecode(entries, pairs, sorted);
    DecodeDictNode(PairNodes(sorted));
  }

  lemma {:induction false} DecodeDictNode(nodes: seq<Json>)
    requires DecodeEntries(nodes).Some?
    ensures Decode(Node("dict", JArr(nodes))) == Some(DictValue(DecodeEntries(nodes).value))
  {
    assert Node("dict", JArr(nodes)).items[1] == JArr(nodes);
  }

  function PairNode(p: Pair): Json {
    JArr([JStr(p.key), p.node])
  }

  lemma {:induction false} DecodePair(entry: Entry, p: Pair)
    requires EncodeEntry(entry) == Success(p)
    ensures DecodeEntry(PairNode(p)).Some? && SameEntry(entry, DecodeEntry(PairNode(p)).value)
    decreases entry, 0
  {
    DecodeEncoded(entry.value);
    assert PairNode(p).items[0] == JStr(p.key) && PairNode(p).items[1] == p.node;
  }

  lemma {:induction false} DecodePairs(entries: seq<Entry>, pairs: seq<Pair>)
    requires |pairs| == |entries| && forall i | 0 <= i < |entries| :: EncodeEntry(entries[i]) == Success(pairs[i])
    ensures forall i | 0 <= i < |entries| ::
              DecodeEntry(PairNode(pairs[i])).Some? && SameEntry(entries[i], DecodeEntry(PairNode(pairs[i])).value)
    decreases entries, 0
  {
    forall i | 0 <= i < |entries|
      ensures DecodeEntry(PairNode(pairs[i])).Some?
      ensures SameEntry(entries[i], DecodeEntry(PairNode(pairs[i])).value)
    {
      DecodePair(entries[i], pairs[i]);
    }
  }

  lemma {:induction false} PairsDecode(entries: seq<Entry>, pairs: seq<Pair>, sorted: seq<Pair>)
    requires |pairs| == |entries| && multiset(sorted) == multiset(pairs)
    requires forall i | 0 <= i < |entries| ::
               DecodeEntry(PairNode(pairs[i])).Some? && SameEntry(entries[i], DecodeEntry(PairNode(pairs[i])).value)
    ensures DecodeEntries(PairNodes(sorted)).Some?
    ensures SameEntries(entries, DecodeEntries(PairNodes(sorted)).value)
  {
    SameMembers(pairs, sorted);
    var nodes := PairNodes(sorted);
    var ws := DecodeEntries(nodes);
    forall i | 0 <= i < |entries|
      ensures ws.Some? ==> EntryInRight(entries[i], ws.value)
    {
      assert pairs[i] in sorted;
      var k :| 0 <= k < |sorted| && sorted[k] == pairs[i];
      assert nodes[k] == PairNode(pairs[i]);
      if ws.Some? {
        assert DecodeEntry(nodes[k]) == Some(ws.value[k]);
      }
    }
    forall k | 0 <= k < |sorted|
      ensures DecodeEntry(nodes[k]).Some? && (ws.Some? ==> EntryInLeft(entries, ws.value[k]))
    {
      assert sorted[k] in pairs;
      var i :| 0 <= i < |pairs| && pairs[i] == sorted[k];
      assert nodes[k] == PairNode(pairs[i]);
      if ws.Some? {
        assert DecodeEntry(nodes[k]) == Some(ws.value[k]) && SameEntry(entries[i], ws.value[k]);
      }
    }
  }

  // ----- the order of what is written -----

  /** The pairs of a dict are written by rising keys, and each key once. */
  lemma {:induction false} DictWrittenInOrder(entries: seq<Entry>)
    requires ProperValue(DictValue(entries)) && Encode(DictValue(entries)).Success?
    ensures exists pairs: seq<Pair> ::
              Encode(DictValue(entries)).value == Node("dict", JArr(PairNodes(pairs)))
              && forall i, j | 0 <= i < j < |pairs| :: Before(pairs[i].key, pairs[j].key)
  {
    var a := EncodeEntries(entries).value;
    KeysDistinct(entries, a);
    SortedIsStrict(a);
    var pairs := Sort(a, ByKey());
    forall i, j | 0 <= i < j < |pairs|
      ensures Before(pairs[i].key, pairs[j].key)
    {
      StringLeExactly(pairs[i].key, pairs[j].key);
    }
  }

  /** The members of a set are written by rising text. */
  lemma {:induction false} SetWrittenInOrder(items: seq<Value>)
    requires Encode(SetValue(items)).Success?
    ensures exists members ::
              Encode(SetValue(items)).value == Node("set", JArr(members))
              && forall i, j | 0 <= i < j < |members| :: Before(Text(members[i]), Text(members[j]))
  {
    var nodes := EncodeAll(items).value;
    var members := Sort(nodes, ByText());
    ByTextOrder();
    SortSorts(nodes, ByText());
    AmbiguousMeaning(nodes);
    forall i, j | 0 <= i < j < |members|
      ensures Before(Text(members[i]), Text(members[j]))
    {
      assert ByText()(members[i], members[j]) && members[i] != members[j];
      TextInjective(members[i], members[j]);
      StringLeExactly(Text(members[i]), Text(members[j]));
    }
  }
}
