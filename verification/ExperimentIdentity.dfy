/** Hashes and experiment id of research_contracts/canonical_hash.py, for any digest. */
module ExperimentIdentity {
  import opened Wrappers
  import opened CanonicalJson
  import opened CanonicalHash
  import CanonicalDomain

  const IDENTITY_COMPONENTS: seq<string> :=
    ["strategy", "code", "params", "dataset_manifest", "universe", "pit", "frozen_config", "policy", "benchmark",
     "cost", "mdd"]

  type Digest = string -> string

  ghost predicate CollisionFree(digest: Digest) {
    forall s, t :: digest(s) == digest(t) ==> s == t
  }

  type Components = map<string, Value>

  /** components.get(name) */
  function Component(components: Components, name: string): Value {
    if name in components then components[name] else NoneValue
  }

  function HashAst(ast: Json, digest: Digest): string {
    digest(Text(ast))
  }

  // ----- the two hashing entry points -----

  /** encode_manifest restricted to the first n names; the manifest maps a name to its AST. */
  function EncodeManifest(components: Components, n: nat): (r: Result<map<string, Json>, EncodeError>)
    requires n <= |IDENTITY_COMPONENTS|
    ensures r.Success? ==> forall i | 0 <= i < n ::
              && IDENTITY_COMPONENTS[i] in r.value
              && Encode(Component(components, IDENTITY_COMPONENTS[i])) == Success(r.value[IDENTITY_COMPONENTS[i]])
  {
    if n == 0 then Success(map[])
    else
      match EncodeManifest(components, n - 1)
      case Failure(e) => Failure(e)
      case Success(manifest) =>
        var name := IDENTITY_COMPONENTS[n - 1];
        match Encode(Component(components, name))
        case Failure(e) => Failure(e)
        case Success(ast) => Success(manifest[name := ast])
  }

  /** compute_identity_hashes: encode, then hash; one digest per component, in component order. */
  function IdentityHashes(components: Components, n: nat, digest: Digest): (r: Result<seq<string>, EncodeError>)
    requires n <= |IDENTITY_COMPONENTS|
    ensures r.Success? ==> |r.value| == n
    ensures r.Success? ==> forall i | 0 <= i < n ::
              && Encode(Component(components, IDENTITY_COMPONENTS[i])).Success?
              && r.value[i] == HashAst(Encode(Component(components, IDENTITY_COMPONENTS[i])).value, digest)
  {
    if n == 0 then Success([])
    else
      match IdentityHashes(components, n - 1, digest)
      case Failure(e) => Failure(e)
      case Success(hashes) =>
        match Encode(Component(components, IDENTITY_COMPONENTS[n - 1]))
        case Failure(e) => Failure(e)
        case Success(ast) => Success(hashes + [HashAst(ast, digest)])
  }

  /** compute_identity_hashes_from_ast: hash the persisted manifest directly; a missing name is null. */
  function HashesFromAst(manifest: map<string, Json>, digest: Digest): (hashes: seq<string>)
    ensures |hashes| == |IDENTITY_COMPONENTS|
    ensures forall i | 0 <= i < |hashes| ::
              hashes[i] == HashAst(if IDENTITY_COMPONENTS[i] in manifest then manifest[IDENTITY_COMPONENTS[i]]
                                   else Node("null", JNull), digest)
  {
    seq(|IDENTITY_COMPONENTS|, i requires 0 <= i < |IDENTITY_COMPONENTS| =>
      HashAst(if IDENTITY_COMPONENTS[i] in manifest then manifest[IDENTITY_COMPONENTS[i]]
              else Node("null", JNull), digest))
  }

  /** Hashing the persisted manifest gives the hashes of the raw components; and the one is defined
      exactly when the other is. */
  lemma {:induction false} ManifestHashesAgree(components: Components, digest: Digest)
    ensures var n := |IDENTITY_COMPONENTS|;
            && EncodeManifest(components, n).Success? == IdentityHashes(components, n, digest).Success?
            && (EncodeManifest(components, n).Success? ==>
                  HashesFromAst(EncodeManifest(components, n).value, digest)
                    == IdentityHashes(components, n, digest).value)
  {
    BothEncode(components, |IDENTITY_COMPONENTS|, digest);
  }

  lemma {:induction false} BothEncode(components: Components, n: nat, digest: Digest)
    requires n <= |IDENTITY_COMPONENTS|
    ensures EncodeManifest(components, n).Success? == IdentityHashes(components, n, digest).Success?
  {
    if n > 0 {
      BothEncode(components, n - 1, digest);
    }
  }

  /** The hashes exist exactly when every identity component given is a supported value, whatever else is given.
      Each is the digest of the component's canonical text, and a component not given has that of null. */
  lemma {:induction false} HashesExactly(components: Components, digest: Digest)
    requires ProperComponents(components)
    ensures var r := IdentityHashes(components, |IDENTITY_COMPONENTS|, digest);
            && (r.Success? <==> forall i | 0 <= i < |IDENTITY_COMPONENTS| && IDENTITY_COMPONENTS[i] in components ::
                    CanonicalDomain.Supported(components[IDENTITY_COMPONENTS[i]]))
            && (r.Success? ==> |r.value| == |IDENTITY_COMPONENTS| && forall i | 0 <= i < |r.value| ::
                  var name := IDENTITY_COMPONENTS[i];
                  var text := CanonicalText(if name in components then components[name] else NoneValue);
                  text.Success? && r.value[i] == digest(text.value))
  {
    FirstHashesExist(components, |IDENTITY_COMPONENTS|, digest);
  }

  lemma {:induction false} FirstHashesExist(components: Components, n: nat, digest: Digest)
    requires n <= |IDENTITY_COMPONENTS| && ProperComponents(components)
    ensures IdentityHashes(components, n, digest).Success? <==>
            forall i | 0 <= i < n && IDENTITY_COMPONENTS[i] in components ::
              CanonicalDomain.Supported(components[IDENTITY_COMPONENTS[i]])
  {
    if n > 0 {
      FirstHashesExist(components, n - 1, digest);
      ComponentEncodes(components, IDENTITY_COMPONENTS[n - 1]);
    }
  }

  lemma {:induction false} ComponentEncodes(components: Components, name: string)
    requires ProperComponents(components)
    ensures Encode(Component(components, name)).Success? <==>
            (name in components ==> CanonicalDomain.Supported(components[name]))
  {
    CanonicalDomain.EncodeExactly(Component(components, name));
  }

  // ----- the manifest as it is persisted -----

  /** The manifest stored as text, one document per component. */
  function StoreManifest(manifest: map<string, Json>): (stored: map<string, string>)
    ensures stored.Keys == manifest.Keys && forall name | name in stored :: stored[name] == Text(manifest[name])
  {
    map name | name in manifest :: Text(manifest[name])
  }

  predicate Readable(stored: map<string, string>) {
    forall name | name in stored.Keys :: Parse(stored[name]).Some?
  }

  function ReadManifest(stored: map<string, string>): (manifest: map<string, Json>)
    requires Readable(stored)
    ensures manifest.Keys == stored.Keys
            && forall name | name in manifest :: Some(manifest[name]) == Parse(stored[name])
  {
    map name | name in stored :: Parse(stored[name]).value
  }

  lemma {:induction false} StoredManifestReads(manifest: map<string, Json>)
    ensures Readable(StoreManifest(manifest)) && ReadManifest(StoreManifest(manifest)) == manifest
  {
    forall name | name in manifest
      ensures Parse(StoreManifest(manifest)[name]) == Some(manifest[name])
    {
      TextRoundTrip(manifest[name]);
    }
  }

  /** Storing the manifest as text, reading it back and hashing it without encoding again gives the hashes of the
      raw components. */
  lemma {:induction false} StoredManifestHashesAgree(components: Components, digest: Digest)
    requires EncodeManifest(components, |IDENTITY_COMPONENTS|).Success?
    ensures var n := |IDENTITY_COMPONENTS|;
            var stored := StoreManifest(EncodeManifest(components, n).value);
            && IdentityHashes(components, n, digest).Success? && Readable(stored)
            && HashesFromAst(ReadManifest(stored), digest) == IdentityHashes(components, n, digest).value
  {
    ManifestHashesAgree(components, digest);
    StoredManifestReads(EncodeManifest(components, |IDENTITY_COMPONENTS|).value);
  }

  // ----- derive_experiment_id -----

  function HashEntry(name: string, hash: string): Entry {
    Entry(Some(name + "_hash"), StrValue(hash))
  }

  function HashEntries(hashes: seq<string>): (es: seq<Entry>)
    requires |hashes| == |IDENTITY_COMPONENTS|
    ensures |es| == |hashes| && forall i | 0 <= i < |es| :: es[i] == HashEntry(IDENTITY_COMPONENTS[i], hashes[i])
  {
    seq(|hashes|, i requires 0 <= i < |hashes| => HashEntry(IDENTITY_COMPONENTS[i], hashes[i]))
  }

  function Identity(strategyKey: string, version: string, hashes: seq<string>): Value
    requires |hashes| == |IDENTITY_COMPONENTS|
  {
    DictValue([Entry(Some("strategy_key"), StrValue(strategyKey)),
               Entry(Some("strategy_version"), StrValue(version)),
               Entry(Some("component_hashes"), DictValue(HashEntries(hashes)))])
  }

  function ExperimentId(strategyKey: string, version: string, hashes: seq<string>, digest: Digest): string
    requires |hashes| == |IDENTITY_COMPONENTS|
  {
    IdentityEncodes(strategyKey, version, hashes);
    digest(CanonicalText(Identity(strategyKey, version, hashes)).value)
  }

  lemma {:induction false} StringEntryEncodes(e: Entry)
    requires e.key.Some? && e.value.StrValue?
    ensures EncodeEntry(e).Success?
  {
    assert Encode(e.value).Success?;
  }

  lemma {:induction false} StringEntriesEncode(es: seq<Entry>)
    requires forall i | 0 <= i < |es| :: es[i].key.Some? && es[i].value.StrValue?
    ensures EncodeEntries(es).Success?
  {
    if es != [] {
      StringEntryEncodes(es[0]);
      StringEntriesEncode(es[1..]);
    }
  }

  lemma {:induction false} IdentityEncodes(strategyKey: string, version: string, hashes: seq<string>)
    requires |hashes| == |IDENTITY_COMPONENTS|
    ensures Encode(Identity(strategyKey, version, hashes)).Success?
    ensures CanonicalText(Identity(strategyKey, version, hashes)).Success?
  {
    StringEntriesEncode(HashEntries(hashes));
    assert Encode(DictValue(HashEntries(hashes))).Success?;
    var es := Identity(strategyKey, version, hashes).entries;
    StringEntryEncodes(es[0]);
    StringEntryEncodes(es[1]);
    assert EncodeEntry(es[2]).Success?;
    ThreeEntriesEncode(es);
  }

  lemma {:induction false} ThreeEntriesEncode(es: seq<Entry>)
    requires |es| == 3
    requires EncodeEntry(es[0]).Success? && EncodeEntry(es[1]).Success? && EncodeEntry(es[2]).Success?
    ensures Encode(DictValue(es)).Success?
  {
    assert es[1..][0] == es[1] && es[1..][1..] == es[2..] && es[2..][0] == es[2] && es[2..][1..] == [];
    assert EncodeEntries([]).Success?;
    assert EncodeEntries(es[2..]).Success?;
    assert EncodeEntries(es[1..]).Success?;
    assert EncodeEntries(es).Success?;
  }

  /** Length and third letter tell the component names apart. */
  function NameCode(t: string): nat {
    if |t| < 3 then 0 else 1_000_000 * |t| + t[2] as int
  }

  lemma {:induction false} NamesDistinct(i: nat, j: nat)
    requires i < |IDENTITY_COMPONENTS| && j < |IDENTITY_COMPONENTS| && i != j
    ensures IDENTITY_COMPONENTS[i] != IDENTITY_COMPONENTS[j]
  {
    assert NameCode(IDENTITY_COMPONENTS[i]) != NameCode(IDENTITY_COMPONENTS[j]);
  }

  lemma {:induction false} SuffixCancels(a: string, b: string, suffix: string)
    ensures a + suffix == b + suffix ==> a == b
  {
    if a + suffix == b + suffix {
      assert |a| == |b|;
      assert a == (a + suffix)[..|a|] && b == (b + suffix)[..|b|];
    }
  }

  lemma {:induction false} KeysDistinctFor(i: nat, j: nat)
    requires i < |IDENTITY_COMPONENTS| && j < |IDENTITY_COMPONENTS| && i != j
    ensures IDENTITY_COMPONENTS[i] + "_hash" != IDENTITY_COMPONENTS[j] + "_hash"
  {
    NamesDistinct(i, j);
    SuffixCancels(IDENTITY_COMPONENTS[i], IDENTITY_COMPONENTS[j], "_hash");
  }

  lemma {:induction false} IdentityProper(strategyKey: string, version: string, hashes: seq<string>)
    requires |hashes| == |IDENTITY_COMPONENTS|
    ensures ProperValue(Identity(strategyKey, version, hashes))
  {
    var es := HashEntries(hashes);
    forall i, j | 0 <= i < j < |es|
      ensures es[i].key != es[j].key
    {
      KeysDistinctFor(i, j);
    }
    assert ProperValue(DictValue(es));
    assert |"strategy_key"| == 12 && |"strategy_version"| == 16 && |"component_hashes"| == 16;
    assert "strategy_version"[0] == 's' && "component_hashes"[0] == 'c';
  }

  // ----- the identity is a faithful function of its parts -----

  lemma {:induction false} SameHashEntries(hashes: seq<string>, hashes': seq<string>)
    requires |hashes| == |hashes'| == |IDENTITY_COMPONENTS|
    ensures Same(DictValue(HashEntries(hashes)), DictValue(HashEntries(hashes'))) <==> hashes == hashes'
  {
    var es, fs := HashEntries(hashes), HashEntries(hashes');
    forall i, j | 0 <= i < |es| && 0 <= j < |fs|
      ensures SameEntry(es[i], fs[j]) <==> i == j && hashes[i] == hashes'[j]
    {
      if i != j {
        KeysDistinctFor(i, j);
      }
    }
    if SameEntries(es, fs) {
      forall i | 0 <= i < |hashes|
        ensures hashes[i] == hashes'[i]
      {
        assert EntryInRight(es[i], fs);
      }
    }
    if hashes == hashes' {
      forall i | 0 <= i < |es|
        ensures EntryInRight(es[i], fs) && EntryInLeft(es, fs[i])
      {
        assert SameEntry(es[i], fs[i]);
      }
    }
  }

  lemma {:induction false} SameIdentity(k: string, v: string, hashes: seq<string>, k': string, v': string,
                                        hashes': seq<string>)
    requires |hashes| == |hashes'| == |IDENTITY_COMPONENTS|
    ensures Same(Identity(k, v, hashes), Identity(k', v', hashes')) <==> k == k' && v == v' && hashes == hashes'
  {
    var es, fs := Identity(k, v, hashes).entries, Identity(k', v', hashes').entries;
    SameHashEntries(hashes, hashes');
    KeysOfIdentity();
    forall i, j | 0 <= i < 3 && 0 <= j < 3
      ensures SameEntry(es[i], fs[j]) <==> i == j && Same(es[i].value, fs[j].value)
    {
    }
    assert SameEntry(es[0], fs[0]) <==> k == k';
    assert SameEntry(es[1], fs[1]) <==> v == v';
    assert SameEntry(es[2], fs[2]) <==> hashes == hashes';
    if SameEntries(es, fs) {
      assert EntryInRight(es[0], fs) && EntryInRight(es[1], fs) && EntryInRight(es[2], fs);
    }
    if k == k' && v == v' && hashes == hashes' {
      forall i | 0 <= i < 3
        ensures EntryInRight(es[i], fs) && EntryInLeft(es, fs[i])
      {
        assert SameEntry(es[i], fs[i]);
      }
    }
  }

  lemma {:induction false} KeysOfIdentity()
    ensures "strategy_key" != "strategy_version" && "strategy_key" != "component_hashes"
    ensures "strategy_version" != "component_hashes"
  {
    assert |"strategy_key"| == 12 && |"strategy_version"| == 16 && |"component_hashes"| == 16;
    assert "strategy_version"[0] == 's' && "component_hashes"[0] == 'c';
  }

  ghost predicate ProperComponents(components: Components) {
    forall name | name in components :: ProperValue(components[name])
  }

  /** Under a collision-free digest two experiments share an id exactly when the strategy key, the version
      and every identity component are the same typed value. */
  lemma {:induction false} ExperimentIdDecides(k: string, v: string, c: Components, k': string, v': string,
                                               c': Components, digest: Digest)
    requires CollisionFree(digest) && ProperComponents(c) && ProperComponents(c')
    requires var n := |IDENTITY_COMPONENTS|;
             IdentityHashes(c, n, digest).Success? && IdentityHashes(c', n, digest).Success?
    ensures var n := |IDENTITY_COMPONENTS|;
            ExperimentId(k, v, IdentityHashes(c, n, digest).value, digest)
            == ExperimentId(k', v', IdentityHashes(c', n, digest).value, digest)
            <==> k == k' && v == v'
                 && forall i | 0 <= i < n ::
                   Same(Component(c, IDENTITY_COMPONENTS[i]), Component(c', IDENTITY_COMPONENTS[i]))
  {
    var n := |IDENTITY_COMPONENTS|;
    var hashes, hashes' := IdentityHashes(c, n, digest).value, IdentityHashes(c', n, digest).value;
    forall i | 0 <= i < n
      ensures hashes[i] == hashes'[i]
              <==> Same(Component(c, IDENTITY_COMPONENTS[i]), Component(c', IDENTITY_COMPONENTS[i]))
    {
      ComponentHashDecides(Component(c, IDENTITY_COMPONENTS[i]), Component(c', IDENTITY_COMPONENTS[i]), digest);
    }
    IdOfHashes(k, v, hashes, k', v', hashes', digest);
  }

  lemma {:induction false} ComponentHashDecides(x: Value, y: Value, digest: Digest)
    requires CollisionFree(digest) && ProperValue(x) && ProperValue(y) && Encode(x).Success? && Encode(y).Success?
    ensures HashAst(Encode(x).value, digest) == HashAst(Encode(y).value, digest) <==> Same(x, y)
  {
    EncodeSame(x, y);
    TextInjective(Encode(x).value, Encode(y).value);
  }

  lemma {:induction false} IdOfHashes(k: string, v: string, hashes: seq<string>, k': string, v': string,
                                      hashes': seq<string>, digest: Digest)
    requires CollisionFree(digest) && |hashes| == |hashes'| == |IDENTITY_COMPONENTS|
    ensures ExperimentId(k, v, hashes, digest) == ExperimentId(k', v', hashes', digest)
            <==> k == k' && v == v' && hashes == hashes'
  {
    IdentityEncodes(k, v, hashes);
    IdentityEncodes(k', v', hashes');
    IdentityProper(k, v, hashes);
    IdentityProper(k', v', hashes');
    CanonicalTextDecides(Identity(k, v, hashes), Identity(k', v', hashes'));
    SameIdentity(k, v, hashes, k', v', hashes');
  }
}
