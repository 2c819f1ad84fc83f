/** Proposed changes to settings (internal/api/config_registry.go): the merge
    patch, against RFC 7396 section 2, and what an approved update sends. */
module MergePatch {
  import opened Text
  import opened Json

  type Fields = map<string, Json>

  /** mergeInto: what dst becomes. */
  function Merged(dst: Fields, patch: Fields): Fields
    decreases Obj(patch)
  {
    map k | k in dst.Keys + patch.Keys && (k in patch ==> patch[k] != Null) ::
      if k !in patch then dst[k]
      else if patch[k].Obj? && k in dst && dst[k].Obj? then Obj(Merged(dst[k].fields, patch[k].fields))
      else patch[k]
  }

  function At(m: Fields, k: string): Option<Json> {
    if k in m then Some(m[k]) else None
  }

  /** MergePatch of RFC 7396 section 2; None is an undefined target. */
  function Rfc(target: Option<Json>, patch: Json): Json
    decreases patch
  {
    if !patch.Obj? then patch
    else
      var base: Fields := if target.Some? && target.value.Obj? then target.value.fields else map[];
      Obj(map k | k in base.Keys + patch.fields.Keys && (k in patch.fields ==> patch.fields[k] != Null) ::
        if k in patch.fields then Rfc(At(base, k), patch.fields[k]) else base[k])
  }

  /** No object reached through object members has a null member. */
  ghost predicate NullFree(j: Json) {
    j.Obj? ==> forall k | k in j.fields :: j.fields[k] != Null && NullFree(j.fields[k])
  }

  /** Every patch object that lands on a missing or non-object member is null-free. */
  ghost predicate LandsNullFree(dst: Fields, patch: Fields)
    decreases Obj(patch)
  {
    forall k | k in patch && patch[k].Obj? ::
      if k in dst && dst[k].Obj? then LandsNullFree(dst[k].fields, patch[k].fields) else NullFree(patch[k])
  }

  /** Null members dropped from every object reached through object members. */
  function Stripped(j: Json): Json {
    if !j.Obj? then j
    else Obj(map k | k in j.fields && j.fields[k] != Null :: Stripped(j.fields[k]))
  }

  // ---- mergeInto against the RFC ----

  /** The RFC drops the nulls of an object that lands on nothing. */
  lemma {:induction false} RfcOnNothing(target: Option<Json>, j: Json)
    requires target.Some? ==> !target.value.Obj?
    ensures Rfc(target, j) == Stripped(j)
    decreases j
  {
    if j.Obj? {
      forall k | k in j.fields ensures Rfc(None, j.fields[k]) == Stripped(j.fields[k]) {
        RfcOnNothing(None, j.fields[k]);
      }
    }
  }

  lemma {:induction false} StrippedSame(j: Json)
    ensures Stripped(j) == j <==> NullFree(j)
    decreases j
  {
    if j.Obj? {
      forall k | k in j.fields ensures Stripped(j.fields[k]) == j.fields[k] <==> NullFree(j.fields[k]) {
        StrippedSame(j.fields[k]);
      }
      var s := Stripped(j).fields;
      if Stripped(j) == j {
        forall k | k in j.fields ensures j.fields[k] != Null && NullFree(j.fields[k]) {
          assert k in s && s[k] == Stripped(j.fields[k]);
        }
      }
      if NullFree(j) {
        assert s == j.fields;
      }
    }
  }

  /** mergeInto is the RFC's MergePatch exactly when no patch object with a
      null lands on a missing or non-object member. */
  lemma {:induction false} MeetsRfc(dst: Fields, patch: Fields)
    ensures Obj(Merged(dst, patch)) == Rfc(Some(Obj(dst)), Obj(patch)) <==> LandsNullFree(dst, patch)
    decreases Obj(patch)
  {
    var m, r := Merged(dst, patch), Rfc(Some(Obj(dst)), Obj(patch)).fields;
    assert m.Keys == r.Keys;
    forall k | k in patch && patch[k].Obj?
      ensures m[k] == r[k] <==>
              if k in dst && dst[k].Obj? then LandsNullFree(dst[k].fields, patch[k].fields) else NullFree(patch[k])
    {
      if k in dst && dst[k].Obj? {
        MeetsRfc(dst[k].fields, patch[k].fields);
        assert dst[k] == Obj(dst[k].fields) && patch[k] == Obj(patch[k].fields);
      } else {
        RfcOnNothing(At(dst, k), patch[k]);
        StrippedSame(patch[k]);
      }
    }
    if LandsNullFree(dst, patch) {
      forall k | k in m ensures m[k] == r[k] {
        if k in patch && !patch[k].Obj? { assert Rfc(At(dst, k), patch[k]) == patch[k]; }
      }
      assert m == r;
    }
    if m == r {
      assert forall k | k in patch && patch[k].Obj? :: m[k] == r[k];
    }
  }

  lemma {:induction false} StrippedTwice(j: Json)
    ensures Stripped(Stripped(j)) == Stripped(j)
    decreases j
  {
    if j.Obj? {
      forall k | k in j.fields ensures Stripped(Stripped(j.fields[k])) == Stripped(j.fields[k]) {
        StrippedTwice(j.fields[k]);
      }
      StrippedNull(j);
    }
  }

  lemma StrippedNull(j: Json)
    ensures j.Obj? ==> forall k | k in j.fields && j.fields[k] != Null :: Stripped(j.fields[k]) != Null
  {
  }

  lemma StrippedAlike(m: Fields, r: Fields)
    requires m.Keys == r.Keys
    requires forall k | k in m :: Stripped(m[k]) == Stripped(r[k]) && (m[k] == Null <==> r[k] == Null)
    ensures Stripped(Obj(m)) == Stripped(Obj(r))
  {
    assert Stripped(Obj(m)).fields == Stripped(Obj(r)).fields;
  }

  /** On every input the two differ in null members only. */
  lemma {:induction false} MeetsRfcButNulls(dst: Fields, patch: Fields)
    ensures Stripped(Obj(Merged(dst, patch))) == Stripped(Rfc(Some(Obj(dst)), Obj(patch)))
    decreases Obj(patch)
  {
    var m, r := Merged(dst, patch), Rfc(Some(Obj(dst)), Obj(patch)).fields;
    assert m.Keys == r.Keys;
    forall k | k in m ensures Stripped(m[k]) == Stripped(r[k]) && (m[k] == Null <==> r[k] == Null) {
      if k in patch && patch[k].Obj? {
        if k in dst && dst[k].Obj? {
          MeetsRfcButNulls(dst[k].fields, patch[k].fields);
          assert dst[k] == Obj(dst[k].fields) && patch[k] == Obj(patch[k].fields);
        } else {
          RfcOnNothing(At(dst, k), patch[k]);
          StrippedTwice(patch[k]);
        }
      } else if k in patch {
        assert Rfc(At(dst, k), patch[k]) == patch[k];
      }
    }
    StrippedAlike(m, r);
  }

  /** The input where they differ. */
  lemma NullLandsOnNothing()
    ensures var patch: Fields := map["a" := Obj(map["b" := Null])];
            && Merged(map[], patch) == patch
            && Rfc(Some(Obj(map[])), Obj(patch)) == Obj(map["a" := Obj(map[])])
  {
    var inner: Fields := map["b" := Null];
    var patch: Fields := map["a" := Obj(inner)];
    assert Merged(map[], patch) == patch;
    var none: Fields := map[];
    assert Rfc(None, Obj(inner)).fields == none;
    assert Rfc(Some(Obj(none)), Obj(patch)).fields == map["a" := Obj(none)];
  }

  /** Merging a patch again changes nothing, exactly when the first merge
      agreed with the RFC. */
  lemma {:induction false} AgainSame(dst: Fields, patch: Fields)
    ensures Merged(Merged(dst, patch), patch) == Merged(dst, patch) <==> LandsNullFree(dst, patch)
    decreases Obj(patch)
  {
    var m := Merged(dst, patch);
    var twice := Merged(m, patch);
    assert twice.Keys == m.Keys;
    forall k | k in patch && patch[k].Obj?
      ensures twice[k] == m[k] <==>
              if k in dst && dst[k].Obj? then LandsNullFree(dst[k].fields, patch[k].fields) else NullFree(patch[k])
    {
      if k in dst && dst[k].Obj? {
        AgainSame(dst[k].fields, patch[k].fields);
      } else {
        OnItself(patch[k].fields);
        StrippedSame(patch[k]);
      }
    }
    if LandsNullFree(dst, patch) {
      forall k | k in m ensures twice[k] == m[k] {}
      assert twice == m;
    }
    if twice == m {
      assert forall k | k in patch && patch[k].Obj? :: twice[k] == m[k];
    }
  }

  lemma {:induction false} OnItself(patch: Fields)
    ensures Obj(Merged(patch, patch)) == Stripped(Obj(patch))
    decreases Obj(patch)
  {
    forall k | k in patch && patch[k].Obj? ensures Obj(Merged(patch[k].fields, patch[k].fields)) == Stripped(patch[k]) {
      OnItself(patch[k].fields);
      assert patch[k] == Obj(patch[k].fields);
    }
    assert Merged(patch, patch) == Stripped(Obj(patch)).fields;
  }

  /** mergeInto, whatever order the map is ranged over. */
  method MergeInto(dst: Fields, patch: Fields) returns (r: Fields)
    ensures r == Merged(dst, patch)
    decreases Obj(patch)
  {
    r := dst;
    var keys := patch.Keys;
    while keys != {}
      invariant keys <= patch.Keys
      invariant r.Keys <= dst.Keys + patch.Keys
      invariant forall k | k !in patch || k in keys :: At(r, k) == At(dst, k)
      invariant forall k | k in patch && k !in keys :: At(r, k) == At(Merged(dst, patch), k)
      decreases keys
    {
      var k :| k in keys;
      keys := keys - {k};
      if patch[k] == Null {
        r := r - {k};
      } else if patch[k].Obj? && k in r && r[k].Obj? {
        assert At(dst, k) == At(r, k);
        var inner := MergeInto(r[k].fields, patch[k].fields);
        r := r[k := Obj(inner)];
      } else {
        assert At(dst, k) == At(r, k);
        r := r[k := patch[k]];
      }
    }
    AllAt(r, Merged(dst, patch));
  }

  lemma UnnamedKept(dst: Fields, patch: Fields, k: string)
    requires k !in patch
    ensures At(Merged(dst, patch), k) == At(dst, k)
  {
  }

  lemma AllAt(a: Fields, b: Fields)
    requires forall k :: At(a, k) == At(b, k)
    ensures a == b
  {
    forall k ensures k in a <==> k in b { assert At(a, k) == At(b, k); }
    forall k | k in a ensures a[k] == b[k] { assert At(a, k) == At(b, k); }
  }

  // ---- a proposed update ----

  /** state: the fields of a setting that its input has. */
  function State(setting: Fields, fields: seq<string>): Fields {
    map k | k in setting && k in fields :: setting[k]
  }

  /** The fields no proposal may set, and the bot's token. */
  predicate CarriesSecret(patch: Fields) {
    || "api_key" in patch || "api_key_env" in patch
    || ("bot" in patch && patch["bot"].Obj? && "token" in patch["bot"].fields && patch["bot"].fields["token"] != Null)
  }

  /** CheckChange of an update: Some of the state hashed for ApplyChange.
      stateHash is taken as injective, so the state stands for its hash. */
  function CheckUpdate(setting: Fields, fields: seq<string>, patch: Fields): (before: Option<Fields>) {
    if CarriesSecret(patch) || exists f | f in patch :: f !in fields then None
    else Some(State(setting, fields))
  }

  /** ApplyChange of an update: Some of the body sent; `key`: the API key a
      person pasted on a provider's card, or "". */
  function ApplyUpdate(setting: Fields, fields: seq<string>, patch: Fields, before: Fields, merges: bool, key: string): (body: Option<Fields>) {
    if State(setting, fields) != before then None
    else
      var all := Merged(if merges then setting else map[], patch);
      Some(State(if key != "" then all["api_key" := Str(key)] else all, fields))
  }

  /** What an update that was checked and later approved sends: the patch, or
      for a kind that merges the state it was proposed on with the patch merged
      in, whatever else changed in the setting in between; and the API key pasted
      by a person, never one from the patch. It is refused exactly when that
      state changed. */
  lemma ApprovedUpdate(proposedOn: Fields, approvedOn: Fields, fields: seq<string>, patch: Fields, merges: bool, key: string)
    requires CheckUpdate(proposedOn, fields, patch).Some?
    ensures var before := CheckUpdate(proposedOn, fields, patch).value;
            var sent := ApplyUpdate(approvedOn, fields, patch, before, merges, key);
            var body := Merged(if merges then State(proposedOn, fields) else map[], patch);
            && (sent.Some? <==> State(approvedOn, fields) == State(proposedOn, fields))
            && (sent.Some? && (key == "" || "api_key" !in fields) ==> sent == Some(body))
            && (sent.Some? && key != "" && "api_key" in fields ==> sent == Some(body["api_key" := Str(key)]))
            && (sent.Some? ==> forall f | f in fields && f !in patch && f != "api_key" ::
                  At(sent.value, f) == if merges then At(proposedOn, f) else None)
  {
    hide Merged;
    var before := State(proposedOn, fields);
    if State(approvedOn, fields) == before {
      var base: Fields := if merges then approvedOn else map[];
      MergeOfState(base, fields, patch);
      assert State(base, fields) == if merges then before else map[];
      var all := Merged(base, patch);
      var sent := ApplyUpdate(approvedOn, fields, patch, before, merges, key).value;
      if key != "" && "api_key" in fields {
        assert sent == State(all, fields)["api_key" := Str(key)];
      } else if key != "" {
        assert sent == State(all, fields);
      }
      forall f | f in fields && f !in patch && f != "api_key" ensures At(sent, f) == if merges then At(proposedOn, f) else None {
        UnnamedKept(base, patch, f);
        assert At(sent, f) == At(all, f) == At(base, f);
        assert merges ==> At(base, f) == At(before, f);
      }
    }
  }

  /** Taking the state commutes with merging a patch of its fields. */
  lemma MergeOfState(setting: Fields, fields: seq<string>, patch: Fields)
    requires forall f | f in patch :: f in fields
    ensures State(Merged(setting, patch), fields) == Merged(State(setting, fields), patch)
  {
    var a, b := State(Merged(setting, patch), fields), Merged(State(setting, fields), patch);
    assert a.Keys == b.Keys;
    forall k | k in a ensures a[k] == b[k] {}
  }

  /** Which updates are refused when proposed: those with an API key, a bot's
      token, or a field the setting's input does not have. */
  lemma ProposalRefused(setting: Fields, fields: seq<string>, patch: Fields)
    ensures "api_key" in patch || "api_key_env" in patch ==> CheckUpdate(setting, fields, patch) == None
    ensures forall bot: Fields | At(patch, "bot") == Some(Obj(bot)) && "token" in bot && bot["token"] != Null ::
              CheckUpdate(setting, fields, patch) == None
    ensures forall f | f in patch && f !in fields :: CheckUpdate(setting, fields, patch) == None
    ensures CheckUpdate(setting, fields, patch) == None ==>
              || "api_key" in patch || "api_key_env" in patch || (exists f :: f in patch && f !in fields)
              || exists bot: Fields :: At(patch, "bot") == Some(Obj(bot)) && "token" in bot && bot["token"] != Null
  {
    if CheckUpdate(setting, fields, patch) == None && "api_key" !in patch && "api_key_env" !in patch
       && forall f | f in patch :: f in fields {
      assert At(patch, "bot") == Some(Obj(patch["bot"].fields));
    }
  }
}
