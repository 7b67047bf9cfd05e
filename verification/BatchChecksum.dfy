/** The checksum of a Transaction Builder file: a hash of its canonical text with meta.name nulled. */
module BatchChecksum {
  import opened Wrappers
  import opened SortedEntries
  import opened CanonicalJson

  type Fields = seq<Entry<Json>>

  /** A batch file: the fields beside meta, and the fields of meta. */
  datatype TxFile = TxFile(body: Fields, meta: Fields)

  function ToJson(f: TxFile): Json {
    Obj(f.body + [Entry("meta", Obj(f.meta))])
  }

  /** Overwrite a field in place, or add it at the end. */
  function SetField(fields: Fields, key: string, v: Json): Fields {
    if fields == [] then [Entry(key, v)]
    else if fields[0].key == key then [Entry(key, v)] + fields[1..]
    else [fields[0]] + SetField(fields[1..], key, v)
  }

  function RemoveField(fields: Fields, key: string): Fields {
    if fields == [] then []
    else if fields[0].key == key then RemoveField(fields[1..], key)
    else [fields[0]] + RemoveField(fields[1..], key)
  }

  function Preimage(f: TxFile): string {
    Serialize(ToJson(f.(meta := SetField(f.meta, "name", Null))))
  }

  function TxBuilderChecksum(id: string -> string, f: TxFile): string {
    id(Preimage(f))
  }

  function WithChecksum(id: string -> string, f: TxFile): TxFile {
    f.(meta := SetField(f.meta, "checksum", Str(TxBuilderChecksum(id, f))))
  }

  function WithoutChecksum(f: TxFile): TxFile {
    f.(meta := RemoveField(f.meta, "checksum"))
  }

  function Lookup(fields: Fields, key: string): Option<Json> {
    if fields == [] then None
    else if fields[0].key == key then Some(fields[0].value)
    else Lookup(fields[1..], key)
  }

  lemma {:induction false} LookupFinds(fields: Fields, i: nat)
    requires DistinctKeys(fields) && i < |fields|
    ensures Lookup(fields, fields[i].key) == Some(fields[i].value)
  {
    if i > 0 {
      LookupFinds(fields[1..], i - 1);
    }
  }

  lemma {:induction false} LookupHits(fields: Fields, key: string)
    ensures Lookup(fields, key).Some? <==> HasKey(fields, key)
    ensures Lookup(fields, key).Some? ==>
              exists i | 0 <= i < |fields| :: fields[i].key == key && Lookup(fields, key) == Some(fields[i].value)
  {
    if fields != [] && fields[0].key != key {
      LookupHits(fields[1..], key);
      if HasKey(fields[1..], key) {
        var i :| 0 <= i < |fields[1..]| && fields[1..][i].key == key && Lookup(fields, key) == Some(fields[1..][i].value);
        assert fields[i + 1].key == key;
      } else {
        forall i | 0 <= i < |fields| ensures fields[i].key != key {
          assert i > 0 ==> fields[1..][i - 1] == fields[i];
        }
      }
    }
  }

  lemma {:induction false} LookupOfSet(fields: Fields, key: string, v: Json, x: string)
    ensures Lookup(SetField(fields, key, v), x) == if x == key then Some(v) else Lookup(fields, x)
  {
    if fields != [] && fields[0].key != key {
      LookupOfSet(fields[1..], key, v, x);
    }
  }

  lemma {:induction false} LookupOfRemove(fields: Fields, key: string, x: string)
    ensures Lookup(RemoveField(fields, key), x) == if x == key then None else Lookup(fields, x)
  {
    if fields != [] {
      LookupOfRemove(fields[1..], key, x);
    }
  }

  lemma {:induction false} LookupOfAppend(fields: Fields, e: Entry<Json>, x: string)
    requires !HasKey(fields, e.key)
    ensures Lookup(fields + [e], x) == if x == e.key then Some(e.value) else Lookup(fields, x)
  {
    if fields != [] {
      assert fields[0].key != e.key;
      forall i | 0 <= i < |fields[1..]| ensures fields[1..][i].key != e.key {
        assert fields[1..][i] == fields[i + 1];
      }
      LookupOfAppend(fields[1..], e, x);
      assert (fields + [e])[1..] == fields[1..] + [e];
    }
  }

  lemma {:induction false} KeysAfterSet(fields: Fields, key: string, v: Json, x: string)
    ensures HasKey(SetField(fields, key, v), x) <==> x == key || HasKey(fields, x)
  {
    LookupOfSet(fields, key, v, x);
    LookupHits(SetField(fields, key, v), x);
    LookupHits(fields, x);
  }

  lemma KeysAfterRemove(fields: Fields, key: string, x: string)
    ensures HasKey(RemoveField(fields, key), x) <==> x != key && HasKey(fields, x)
  {
    LookupOfRemove(fields, key, x);
    LookupHits(RemoveField(fields, key), x);
    LookupHits(fields, x);
  }

  lemma DistinctCons(e: Entry<Json>, rest: Fields)
    requires DistinctKeys(rest) && !HasKey(rest, e.key)
    ensures DistinctKeys([e] + rest)
  {
  }

  lemma DistinctTail(fields: Fields)
    requires fields != [] && DistinctKeys(fields)
    ensures DistinctKeys(fields[1..]) && !HasKey(fields[1..], fields[0].key)
  {
  }

  lemma {:induction false} SetKeepsWellFormed(fields: Fields, key: string, v: Json)
    requires WellFormed(Obj(fields)) && WellFormed(v)
    ensures WellFormed(Obj(SetField(fields, key, v)))
  {
    if fields != [] {
      DistinctTail(fields);
      if fields[0].key == key {
        DistinctCons(Entry(key, v), fields[1..]);
      } else {
        SetKeepsWellFormed(fields[1..], key, v);
        KeysAfterSet(fields[1..], key, v, fields[0].key);
        DistinctCons(fields[0], SetField(fields[1..], key, v));
      }
    }
  }

  lemma {:induction false} RemoveKeepsWellFormed(fields: Fields, key: string)
    requires WellFormed(Obj(fields))
    ensures WellFormed(Obj(RemoveField(fields, key)))
  {
    if fields != [] {
      DistinctTail(fields);
      RemoveKeepsWellFormed(fields[1..], key);
      KeysAfterRemove(fields[1..], key, fields[0].key);
      if fields[0].key != key {
        DistinctCons(fields[0], RemoveField(fields[1..], key));
      }
    }
  }

  // ---- equality up to key order, by lookup

  ghost predicate SameAt(a: Option<Json>, b: Option<Json>) {
    (a.None? && b.None?) || (a.Some? && b.Some? && Same(a.value, b.value))
  }

  function KeySet(fields: Fields): set<string> {
    set i | 0 <= i < |fields| :: fields[i].key
  }

  lemma {:induction false} KeySetSize(fields: Fields)
    requires DistinctKeys(fields)
    ensures |KeySet(fields)| == |fields|
  {
    if fields != [] {
      DistinctTail(fields);
      KeySetSize(fields[1..]);
      assert KeySet(fields) == {fields[0].key} + KeySet(fields[1..]) by {
        forall i | 0 < i < |fields| ensures fields[i].key in KeySet(fields[1..]) {
          assert fields[1..][i - 1] == fields[i];
        }
        forall i | 0 <= i < |fields[1..]| ensures fields[1..][i].key in KeySet(fields) {
          assert fields[1..][i] == fields[i + 1];
        }
      }
    }
  }

  lemma SameObjectsShareKeys(f: Fields, g: Fields)
    requires DistinctKeys(f) && DistinctKeys(g) && Same(Obj(f), Obj(g))
    ensures KeySet(f) == KeySet(g)
  {
    assert FieldsSame(f, g);
    forall k | k in KeySet(f) ensures k in KeySet(g) {
      var i :| 0 <= i < |f| && f[i].key == k;
      var j :| 0 <= j < |g| && f[i].key == g[j].key && Same(f[i].value, g[j].value);
    }
    KeySetSize(f);
    KeySetSize(g);
    SubsetAsLarge(KeySet(f), KeySet(g));
  }

  lemma SameObjectsAgree(f: Fields, g: Fields, x: string)
    requires DistinctKeys(f) && DistinctKeys(g) && Same(Obj(f), Obj(g))
    ensures SameAt(Lookup(f, x), Lookup(g, x))
  {
    LookupHits(f, x);
    LookupHits(g, x);
    SameObjectsShareKeys(f, g);
    assert HasKey(f, x) <==> x in KeySet(f);
    assert HasKey(g, x) <==> x in KeySet(g);
    assert FieldsSame(f, g);
    if Lookup(f, x).Some? {
      var i :| 0 <= i < |f| && f[i].key == x && Lookup(f, x) == Some(f[i].value);
      var j :| 0 <= j < |g| && f[i].key == g[j].key && Same(f[i].value, g[j].value);
      LookupFinds(g, j);
    }
  }

  lemma AgreeingObjectsAreSame(f: Fields, g: Fields)
    requires DistinctKeys(f) && DistinctKeys(g) && forall x :: SameAt(Lookup(f, x), Lookup(g, x))
    ensures Same(Obj(f), Obj(g))
  {
    forall i | 0 <= i < |f|
      ensures exists j | 0 <= j < |g| :: f[i].key == g[j].key && Same(f[i].value, g[j].value)
    {
      LookupFinds(f, i);
      assert SameAt(Lookup(f, f[i].key), Lookup(g, f[i].key));
      LookupHits(g, f[i].key);
    }
    forall k ensures k in KeySet(f) <==> k in KeySet(g) {
      LookupHits(f, k);
      LookupHits(g, k);
      assert SameAt(Lookup(f, k), Lookup(g, k));
      assert k in KeySet(f) <==> HasKey(f, k);
      assert k in KeySet(g) <==> HasKey(g, k);
    }
    KeySetSize(f);
    KeySetSize(g);
    assert KeySet(f) == KeySet(g);
  }

  // ---- what the checksum covers

  ghost predicate IsFile(f: TxFile) {
    WellFormed(Obj(f.body)) && !HasKey(f.body, "meta") && WellFormed(Obj(f.meta))
  }

  lemma FileIsWellFormed(f: TxFile)
    requires IsFile(f)
    ensures WellFormed(ToJson(f))
  {
  }

  lemma SameFilesIff(f: TxFile, g: TxFile)
    requires IsFile(f) && IsFile(g)
    ensures Same(ToJson(f), ToJson(g)) <==> Same(Obj(f.body), Obj(g.body)) && Same(Obj(f.meta), Obj(g.meta))
  {
    var a, b := f.body + [Entry("meta", Obj(f.meta))], g.body + [Entry("meta", Obj(g.meta))];
    FileIsWellFormed(f);
    FileIsWellFormed(g);
    LookupHits(f.body, "meta");
    LookupHits(g.body, "meta");
    forall x
      ensures Lookup(a, x) == if x == "meta" then Some(Obj(f.meta)) else Lookup(f.body, x)
      ensures Lookup(b, x) == if x == "meta" then Some(Obj(g.meta)) else Lookup(g.body, x)
    {
      LookupOfAppend(f.body, Entry("meta", Obj(f.meta)), x);
      LookupOfAppend(g.body, Entry("meta", Obj(g.meta)), x);
    }
    if Same(ToJson(f), ToJson(g)) {
      SameObjectsAgree(a, b, "meta");
      forall x ensures SameAt(Lookup(f.body, x), Lookup(g.body, x)) {
        SameObjectsAgree(a, b, x);
      }
      AgreeingObjectsAreSame(f.body, g.body);
    }
    if Same(Obj(f.body), Obj(g.body)) && Same(Obj(f.meta), Obj(g.meta)) {
      forall x ensures SameAt(Lookup(a, x), Lookup(b, x)) {
        SameObjectsAgree(f.body, g.body, x);
      }
      AgreeingObjectsAreSame(a, b);
    }
  }

  /** Setting one field to the same value on both sides hides exactly that field. */
  lemma SameWithFieldSetIff(m: Fields, n: Fields, key: string)
    requires WellFormed(Obj(m)) && WellFormed(Obj(n))
    ensures Same(Obj(SetField(m, key, Null)), Obj(SetField(n, key, Null)))
       <==> Same(Obj(RemoveField(m, key)), Obj(RemoveField(n, key)))
  {
    var a, b, c, d := SetField(m, key, Null), SetField(n, key, Null), RemoveField(m, key), RemoveField(n, key);
    SetKeepsWellFormed(m, key, Null);
    SetKeepsWellFormed(n, key, Null);
    RemoveKeepsWellFormed(m, key);
    RemoveKeepsWellFormed(n, key);
    forall x ensures SameAt(Lookup(a, x), Lookup(b, x)) <==> SameAt(Lookup(c, x), Lookup(d, x)) {
      LookupOfSet(m, key, Null, x);
      LookupOfSet(n, key, Null, x);
      LookupOfRemove(m, key, x);
      LookupOfRemove(n, key, x);
    }
    if Same(Obj(a), Obj(b)) {
      forall x ensures SameAt(Lookup(c, x), Lookup(d, x)) {
        SameObjectsAgree(a, b, x);
      }
      AgreeingObjectsAreSame(c, d);
    }
    if Same(Obj(c), Obj(d)) {
      forall x ensures SameAt(Lookup(a, x), Lookup(b, x)) {
        SameObjectsAgree(c, d, x);
      }
      AgreeingObjectsAreSame(a, b);
    }
  }

  /** Two files hash the same text exactly when they agree, up to key order, on everything but meta.name. */
  lemma PreimageIgnoresExactlyName(f: TxFile, g: TxFile)
    requires IsFile(f) && IsFile(g)
    ensures Preimage(f) == Preimage(g) <==>
              && Same(Obj(f.body), Obj(g.body))
              && Same(Obj(RemoveField(f.meta, "name")), Obj(RemoveField(g.meta, "name")))
  {
    var a := f.(meta := SetField(f.meta, "name", Null));
    var b := g.(meta := SetField(g.meta, "name", Null));
    SetKeepsWellFormed(f.meta, "name", Null);
    SetKeepsWellFormed(g.meta, "name", Null);
    FileIsWellFormed(a);
    FileIsWellFormed(b);
    SameTextIffSame(ToJson(a), ToJson(b));
    SameFilesIff(a, b);
    SameWithFieldSetIff(f.meta, g.meta, "name");
  }

  lemma {:induction false} RemoveUndoesSet(fields: Fields, key: string, v: Json)
    ensures RemoveField(SetField(fields, key, v), key) == RemoveField(fields, key)
    ensures !HasKey(fields, key) ==> RemoveField(fields, key) == fields
  {
    if fields != [] {
      RemoveUndoesSet(fields[1..], key, v);
      if !HasKey(fields, key) {
        assert fields[0].key != key;
        forall i | 0 <= i < |fields[1..]| ensures fields[1..][i].key != key {
          assert fields[1..][i] == fields[i + 1];
        }
        assert fields == [fields[0]] + fields[1..];
      }
    }
  }

  /** On import the builder deletes meta.checksum and recomputes. The file verifies exactly when it
      had no checksum before one was added. */
  lemma ImportVerifiesIff(id: string -> string, f: TxFile)
    requires IsFile(f) && forall s, t :: id(s) == id(t) ==> s == t
    ensures TxBuilderChecksum(id, WithoutChecksum(WithChecksum(id, f))) == TxBuilderChecksum(id, f)
       <==> !HasKey(f.meta, "checksum")
  {
    var bare := WithoutChecksum(f);
    RemoveUndoesSet(f.meta, "checksum", Str(TxBuilderChecksum(id, f)));
    assert WithoutChecksum(WithChecksum(id, f)) == bare;
    if HasKey(f.meta, "checksum") && Preimage(bare) == Preimage(f) {
      RemoveKeepsWellFormed(f.meta, "checksum");
      PreimageIgnoresExactlyName(bare, f);
      RemoveKeepsWellFormed(bare.meta, "name");
      RemoveKeepsWellFormed(f.meta, "name");
      SameObjectsAgree(RemoveField(bare.meta, "name"), RemoveField(f.meta, "name"), "checksum");
      LookupOfRemove(bare.meta, "name", "checksum");
      LookupOfRemove(f.meta, "name", "checksum");
      LookupOfRemove(f.meta, "checksum", "checksum");
      LookupHits(f.meta, "checksum");
    }
  }
}
