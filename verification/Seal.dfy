/** Sealing the manifest of an apply proof, and recomputing its seal. */
module Seal {
  import opened Text
  import opened Json
  import opened Canonical

  // ------------------------------------------------------------- object updates

  /** `insert_object`: replace the value of the key, or add the field. */
  function Insert(fields: seq<Field>, key: string, value: Json): seq<Field> {
    if fields == [] then [Field(key, value)]
    else if fields[|fields| - 1].key == key then fields[..|fields| - 1] + [Field(key, value)]
    else Insert(fields[..|fields| - 1], key, value) + [fields[|fields| - 1]]
  }

  function Remove(fields: seq<Field>, key: string): seq<Field> {
    if fields == [] then []
    else
      var rest := Remove(fields[..|fields| - 1], key);
      if fields[|fields| - 1].key == key then rest else rest + [fields[|fields| - 1]]
  }

  /** Inserting changes the answer for its own key and for no other. */
  lemma {:induction false} InsertLookup(fields: seq<Field>, key: string, value: Json, k: string)
    ensures k in Keys(Insert(fields, key, value)) <==> k == key || k in Keys(fields)
    ensures k in Keys(Insert(fields, key, value)) ==>
              Find(Insert(fields, key, value), k) == if k == key then value else Find(fields, k)
  {
    if fields == [] {
      AppendLookup([], Field(key, value), k);
      assert [] + [Field(key, value)] == [Field(key, value)];
    } else {
      var init, last := fields[..|fields| - 1], fields[|fields| - 1];
      assert fields == init + [last];
      AppendLookup(init, last, k);
      if last.key == key {
        AppendLookup(init, Field(key, value), k);
      } else {
        InsertLookup(init, key, value, k);
        AppendLookup(Insert(init, key, value), last, k);
      }
    }
  }

  /** Removing a key changes the answer for that key and for no other. */
  lemma {:induction false} RemoveLookup(fields: seq<Field>, key: string, k: string)
    ensures k in Keys(Remove(fields, key)) <==> k != key && k in Keys(fields)
    ensures k in Keys(Remove(fields, key)) ==> Find(Remove(fields, key), k) == Find(fields, k)
  {
    if fields != [] {
      var init, last := fields[..|fields| - 1], fields[|fields| - 1];
      assert fields == init + [last];
      AppendLookup(init, last, k);
      RemoveLookup(init, key, k);
      AppendLookup(Remove(init, key), last, k);
    }
  }

  // ---------------------------------------------------------------- the manifest

  /** 17 entries that are always there, 7 optional ones, and the two added after sealing. */
  const KEYS: seq<string> := [
    "schema", "accepted", "repo", "covey_db", "mainline_ref", "head", "mainline_commit", "subtask_id",
    "artifact_digest", "review_id", "queue_id", "actors", "covey_rows", "apply_verification_lookup_error",
    "checks", "blockers", "evidence_files",
    "landing_proof", "subject_ref", "subject_commit", "host_signed_runtime_claims",
    "mission_packet_identity_contract", "trusted_provider_run_id_issuers", "forbidden_provider_run_id_issuers",
    "seal_digest", "landing_authorization"]

  const SEAL_DIGEST := KEYS[24]
  const LANDING_AUTHORIZATION := KEYS[25]

  predicate Distinct(keys: seq<string>) { forall i, j :: 0 <= i < j < |keys| ==> keys[i] != keys[j] }

  lemma KeysDistinct()
    ensures |KEYS| == 26 && Distinct(KEYS)
  {
  }

  ghost predicate NotReserved(fields: seq<Field>) {
    SEAL_DIGEST !in Keys(fields) && LANDING_AUTHORIZATION !in Keys(fields)
  }

  /** The object answers each of the first `n` keys with its entry, and no other key. */
  ghost predicate Answers(fields: seq<Field>, keys: seq<string>, entries: seq<Option<Json>>, n: int)
    requires 0 <= n <= |keys| == |entries|
  {
    (forall k :: k in Keys(fields) ==> k in keys[..n]) && forall i :: 0 <= i < n ==> AnswersAt(fields, keys[i], entries[i])
  }

  ghost predicate AnswersAt(fields: seq<Field>, key: string, entry: Option<Json>) {
    (key in Keys(fields) <==> entry.Some?) && (entry.Some? ==> Find(fields, key) == entry.value)
  }

  lemma InsertAnswers(fields: seq<Field>, keys: seq<string>, entries: seq<Option<Json>>, n: nat)
    requires n < |keys| == |entries| && Distinct(keys) && Answers(fields, keys, entries, n) && entries[n].Some?
    ensures Answers(Insert(fields, keys[n], entries[n].value), keys, entries, n + 1)
  {
    var out := Insert(fields, keys[n], entries[n].value);
    assert keys[..n + 1] == keys[..n] + [keys[n]];
    forall k | k in Keys(out) ensures k in keys[..n + 1] {
      InsertLookup(fields, keys[n], entries[n].value, k);
    }
    forall i | 0 <= i < n + 1 ensures AnswersAt(out, keys[i], entries[i]) {
      InsertLookup(fields, keys[n], entries[n].value, keys[i]);
      assert i < n ==> AnswersAt(fields, keys[i], entries[i]);
    }
  }

  lemma SkipAnswers(fields: seq<Field>, keys: seq<string>, entries: seq<Option<Json>>, n: nat)
    requires n < |keys| == |entries| && Distinct(keys) && Answers(fields, keys, entries, n) && entries[n].None?
    ensures Answers(fields, keys, entries, n + 1)
  {
    assert keys[..n + 1] == keys[..n] + [keys[n]];
    assert keys[n] !in keys[..n];
    assert AnswersAt(fields, keys[n], entries[n]);
  }

  method BuildObject(keys: seq<string>, entries: seq<Option<Json>>) returns (fields: seq<Field>)
    requires |keys| == |entries| && Distinct(keys)
    ensures Answers(fields, keys, entries, |keys|)
  {
    fields := [];
    for n := 0 to |keys|
      invariant Answers(fields, keys, entries, n)
    {
      if entries[n].Some? {
        InsertAnswers(fields, keys, entries, n);
        fields := Insert(fields, keys[n], entries[n].value);
      } else {
        SkipAnswers(fields, keys, entries, n);
      }
    }
  }

  /** The manifest before sealing. */
  method BuildManifest(entries: seq<Option<Json>>) returns (manifest: seq<Field>)
    requires |entries| == 24 && forall i :: 0 <= i < 17 ==> entries[i].Some?
    ensures |KEYS| == 26 && Answers(manifest, KEYS[..24], entries, 24) && NotReserved(manifest)
  {
    KeysDistinct();
    manifest := BuildObject(KEYS[..24], entries);
  }

  // -------------------------------------------------------------------- the seal

  function Finish(manifest: seq<Field>, digest: string, authorization: Option<Json>): seq<Field> {
    var sealed := Insert(manifest, SEAL_DIGEST, Str(digest));
    if authorization.Some? then Insert(sealed, LANDING_AUTHORIZATION, authorization.value) else sealed
  }

  /** The manifest without the two fields that are added after the digest is taken. */
  function Strip(fields: seq<Field>): seq<Field> { Remove(Remove(fields, SEAL_DIGEST), LANDING_AUTHORIZATION) }

  method SealManifest(base: seq<Field>, hash: string -> string, authorization: Option<Json>)
    returns (digest: string, file: string)
    ensures digest == hash(CanonicalJson(Obj(base)))
    ensures file == CanonicalJson(Obj(Finish(base, digest, authorization))) + "\n"
  {
    var manifest := base;
    var bytes := WriteCanonicalJson(Obj(manifest));
    digest := hash(bytes);
    manifest := Insert(manifest, SEAL_DIGEST, Str(digest));
    if authorization.Some? { manifest := Insert(manifest, LANDING_AUTHORIZATION, authorization.value); }
    file := WriteCanonicalJson(Obj(manifest));
    file := file + "\n";
  }

  lemma FinishLookup(base: seq<Field>, digest: string, authorization: Option<Json>, k: string)
    requires k != SEAL_DIGEST && k != LANDING_AUTHORIZATION
    ensures k in Keys(Finish(base, digest, authorization)) <==> k in Keys(base)
    ensures k in Keys(base) ==> Find(Finish(base, digest, authorization), k) == Find(base, k)
  {
    var sealed := Insert(base, SEAL_DIGEST, Str(digest));
    InsertLookup(base, SEAL_DIGEST, Str(digest), k);
    if authorization.Some? { InsertLookup(sealed, LANDING_AUTHORIZATION, authorization.value, k); }
  }

  lemma StripLookup(fields: seq<Field>, k: string)
    ensures k in Keys(Strip(fields)) <==> k != SEAL_DIGEST && k != LANDING_AUTHORIZATION && k in Keys(fields)
    ensures k in Keys(Strip(fields)) ==> Find(Strip(fields), k) == Find(fields, k)
  {
    RemoveLookup(fields, SEAL_DIGEST, k);
    RemoveLookup(Remove(fields, SEAL_DIGEST), LANDING_AUTHORIZATION, k);
  }

  /** The finished manifest records the digest, and the authorization exactly if there is one. */
  lemma DigestRecorded(base: seq<Field>, digest: string, authorization: Option<Json>)
    requires NotReserved(base)
    ensures var f := Finish(base, digest, authorization);
            && SEAL_DIGEST == "seal_digest" && LANDING_AUTHORIZATION == "landing_authorization"
            && SEAL_DIGEST in Keys(f) && Find(f, SEAL_DIGEST) == Str(digest)
            && AnswersAt(f, LANDING_AUTHORIZATION, authorization)
  {
    KeysDistinct();
    var sealed := Insert(base, SEAL_DIGEST, Str(digest));
    InsertLookup(base, SEAL_DIGEST, Str(digest), SEAL_DIGEST);
    InsertLookup(base, SEAL_DIGEST, Str(digest), LANDING_AUTHORIZATION);
    if authorization.Some? {
      InsertLookup(sealed, LANDING_AUTHORIZATION, authorization.value, SEAL_DIGEST);
      InsertLookup(sealed, LANDING_AUTHORIZATION, authorization.value, LANDING_AUTHORIZATION);
    }
  }

  /**
   Take the finished manifest, its fields in whatever order a reader finds them, and remove
   the two late fields: what is left prints to exactly the bytes that were sealed.
   */
  lemma StripRecoversSealedBytes(base: seq<Field>, digest: string, authorization: Option<Json>, read: seq<Field>)
    requires NotReserved(base) && Same(Obj(read), Obj(Finish(base, digest, authorization)))
    ensures CanonicalJson(Obj(Strip(read))) == CanonicalJson(Obj(base))
  {
    var f := Finish(base, digest, authorization);
    forall k ensures k in Keys(Strip(read)) <==> k in Keys(base) {
      StripLookup(read, k);
      if k != SEAL_DIGEST && k != LANDING_AUTHORIZATION { FinishLookup(base, digest, authorization, k); }
    }
    forall k | k in Keys(Strip(read)) ensures Same(Find(Strip(read), k), Find(base, k)) {
      StripLookup(read, k);
      FinishLookup(base, digest, authorization, k);
      assert Same(Find(read, k), Find(f, k));
    }
    assert Same(Obj(Strip(read)), Obj(base));
    CanonicalJsonIff(Obj(Strip(read)), Obj(base));
  }

  /** A reader recomputes the digest that the manifest records. */
  lemma SealVerifies(base: seq<Field>, authorization: Option<Json>, hash: string -> string, read: seq<Field>)
    requires NotReserved(base)
    requires Same(Obj(read), Obj(Finish(base, hash(CanonicalJson(Obj(base))), authorization)))
    ensures SEAL_DIGEST in Keys(read) && Find(read, SEAL_DIGEST) == Str(hash(CanonicalJson(Obj(Strip(read)))))
  {
    var digest := hash(CanonicalJson(Obj(base)));
    StripRecoversSealedBytes(base, digest, authorization, read);
    DigestRecorded(base, digest, authorization);
    assert SEAL_DIGEST in Keys(read);
    assert Same(Find(read, SEAL_DIGEST), Str(digest));
  }

  /** With a collision-free digest, a manifest that verifies under this seal is the sealed one. */
  lemma SealBinds(base: seq<Field>, hash: string -> string, read: seq<Field>)
    requires forall x, y :: hash(x) == hash(y) ==> x == y
    requires hash(CanonicalJson(Obj(Strip(read)))) == hash(CanonicalJson(Obj(base)))
    ensures Same(Obj(Strip(read)), Obj(base))
  {
    CanonicalJsonIff(Obj(Strip(read)), Obj(base));
  }

  /** Two written proof files are equal exactly when their manifests are the same. */
  lemma FileIff(a: Json, b: Json)
    ensures CanonicalJson(a) + "\n" == CanonicalJson(b) + "\n" <==> Same(a, b)
  {
    CanonicalJsonIff(a, b);
    if CanonicalJson(a) + "\n" == CanonicalJson(b) + "\n" { PrintInjective(Canon(a), Canon(b), "\n", "\n"); }
  }
}
