/** Every run of the Guard's field encryption keeps tenants apart. */
module EnvelopeRuns {
  import opened Common
  import opened Framing
  import opened Gate
  import opened Envelope

  ghost function VaultAt(keys: Keys, run: seq<Event>, n: nat): Vault
    requires n <= |run|
  {
    if n == 0 then Vault(map[], {}) else Next(keys, VaultAt(keys, run, n - 1), run[n - 1])
  }

  /** Ideal randomness: outputs never repeat, and neither do data keys. */
  ghost predicate FreshDraw(v: Vault, r: Request)
  {
    r.Encrypt? ==>
      && |r.draw.dek| == DEK_LEN && r.draw.dek !in v.deks
      && FreshOutput(v.ledger, r.draw.dek, r.draw.wrapped)
      && FreshOutput(v.ledger, r.plaintext, r.draw.ciphertext)
      && r.draw.wrapped != r.draw.ciphertext
  }

  ghost predicate FreshAt(keys: Keys, run: seq<Event>, n: nat)
    requires n < |run|
  {
    FreshDraw(VaultAt(keys, run, n), run[n].request)
  }

  ghost predicate ValidRun(keys: Keys, run: seq<Event>)
  {
    forall n | 0 <= n < |run| :: FreshAt(keys, run, n)
  }

  /** `wrapped` is this data key, sealed by the key encryption key for this tenant. */
  ghost predicate MintedFor(keys: Keys, v: Vault, wrapped: Bytes, tenant: Slice, dek: Bytes)
  {
    && keys.kek in keys.material && |keys.material[keys.kek]| == DEK_LEN
    && wrapped in v.ledger && |wrapped| > NONCE_LEN
    && v.ledger[wrapped] == Sealing(keys.material[keys.kek], AadOf(DOMAIN_DEK_WRAP, tenant), dek)
  }

  /** Wrapped keys hold 32-byte keys that were drawn, each of them wrapped once. */
  ghost predicate DeksAreSound(keys: Keys, v: Vault)
  {
    && (forall w, t: Slice, dek | MintedFor(keys, v, w, t, dek) :: |dek| == DEK_LEN && dek in v.deks)
    && forall w, w', t: Slice, t': Slice, dek | MintedFor(keys, v, w, t, dek) && MintedFor(keys, v, w', t', dek) :: w == w'
  }

  /** Call i encrypted this plaintext for this tenant and answered with this pair. */
  ghost predicate Wrote(keys: Keys, run: seq<Event>, i: nat, tenant: Slice, wrapped: Bytes, plaintext: Bytes, ciphertext: Bytes)
    requires i < |run|
  {
    && run[i].request.Encrypt? && run[i].request.ctx.Some? && run[i].request.ctx.value.tenantId == tenant
    && run[i].request.plaintext == plaintext
    && EncryptReply(keys, VaultAt(keys, run, i), run[i]) == Done(Encrypted(ciphertext, wrapped))
  }

  /** A sealing in the field domain was written by some call, under a key minted for its tenant. */
  ghost predicate FieldHasWriter(keys: Keys, run: seq<Event>, n: nat, out: Bytes, tenant: Slice)
    requires n <= |run| && out in VaultAt(keys, run, n).ledger
  {
    var v := VaultAt(keys, run, n);
    exists i: nat, w ::
      && i < n && Wrote(keys, run, i, tenant, w, v.ledger[out].plaintext, out)
      && MintedFor(keys, v, w, tenant, v.ledger[out].key)
  }

  ghost predicate FieldsHaveWriters(keys: Keys, run: seq<Event>, n: nat)
    requires n <= |run|
  {
    forall out, t: Slice | out in VaultAt(keys, run, n).ledger && VaultAt(keys, run, n).ledger[out].aad == AadOf(DOMAIN_FIELD, t) ::
      FieldHasWriter(keys, run, n, out, t)
  }

  ghost predicate Grows(v: Vault, v': Vault)
  {
    && v.deks <= v'.deks
    && forall out | out in v.ledger :: out in v'.ledger && v'.ledger[out] == v.ledger[out]
  }

  /** A successful unwrap for a tenant yields a 32-byte data key minted for that tenant. */
  lemma UnwrapIsMinted(keys: Keys, v: Vault, tenant: Slice, wrapped: Bytes)
    requires DeksAreSound(keys, v)
    ensures UnwrapDek(keys, v.ledger, tenant, wrapped).Ok? ==>
      var dek := UnwrapDek(keys, v.ledger, tenant, wrapped).value;
      MintedFor(keys, v, wrapped, tenant, dek) && |dek| == DEK_LEN && dek in v.deks
    ensures forall dek | MintedFor(keys, v, wrapped, tenant, dek) :: UnwrapDek(keys, v.ledger, tenant, wrapped) == Ok(dek)
  {
    if UnwrapDek(keys, v.ledger, tenant, wrapped).Ok? {
      assert MintedFor(keys, v, wrapped, tenant, UnwrapDek(keys, v.ledger, tenant, wrapped).value);
    }
  }

  /** The data key of a first write is wrapped for its tenant and unlike all others. */
  lemma MintStep(keys: Keys, v: Vault, tenant: Slice, wrapped: Bytes, r: Request)
    requires r.Encrypt? && FreshDraw(v, r) && DeksAreSound(keys, v) && Minted(keys, v, tenant, wrapped, r.draw).Ok?
    ensures var (v', w) := Minted(keys, v, tenant, wrapped, r.draw).value;
      && Grows(v, v') && DeksAreSound(keys, v') && FreshOutput(v'.ledger, r.plaintext, r.draw.ciphertext)
      && (wrapped == [] ==> MintedFor(keys, v', w, tenant, r.draw.dek))
      && forall out, t: Slice | out in v'.ledger && v'.ledger[out].aad == AadOf(DOMAIN_FIELD, t) :: out in v.ledger
  {
    var (v', w) := Minted(keys, v, tenant, wrapped, r.draw).value;
    if wrapped == [] {
      forall x, t: Slice, dek | MintedFor(keys, v', x, t, dek) && x != w ensures MintedFor(keys, v, x, t, dek) {
        assert v'.ledger[x] == v.ledger[x];
      }
      forall t: Slice ensures AadOf(DOMAIN_DEK_WRAP, tenant) != AadOf(DOMAIN_FIELD, t) {
        if AadOf(DOMAIN_DEK_WRAP, tenant) == AadOf(DOMAIN_FIELD, t) {
          AadIsInjective(DOMAIN_DEK_WRAP, tenant, DOMAIN_FIELD, t);
        }
      }
    }
  }

  /** What one encryption leaves: nothing, or one field sealed under a minted key. */
  lemma EncryptCases(keys: Keys, v: Vault, e: Event)
    requires e.request.Encrypt? && FreshDraw(v, e.request) && DeksAreSound(keys, v)
    ensures EncryptReply(keys, v, e).Refused? ==> Next(keys, v, e) == v
    ensures EncryptReply(keys, v, e).Done? ==>
      var Encrypted(c, w), t, v' := EncryptReply(keys, v, e).value, e.request.ctx.value.tenantId, Next(keys, v, e);
      && c == e.request.draw.ciphertext && c in v'.ledger && |c| > NONCE_LEN
      && v'.ledger[c].plaintext == e.request.plaintext && v'.ledger[c].aad == AadOf(DOMAIN_FIELD, t)
      && MintedFor(keys, v', w, t, v'.ledger[c].key)
      && forall out, t: Slice | out in v'.ledger && v'.ledger[out].aad == AadOf(DOMAIN_FIELD, t) && out != c :: out in v.ledger
    ensures Grows(v, Next(keys, v, e)) && DeksAreSound(keys, Next(keys, v, e))
  {
    if Stopped(e).None? {
      var t := e.request.ctx.value.tenantId;
      if Minted(keys, v, t, e.request.wrappedDek, e.request.draw).Ok? {
        MintStep(keys, v, t, e.request.wrappedDek, e.request);
        var (v1, w) := Minted(keys, v, t, e.request.wrappedDek, e.request.draw).value;
        UnwrapIsMinted(keys, v1, t, w);
        if UnwrapDek(keys, v1.ledger, t, w).Ok? {
          FieldStep(keys, v1, t, w, e.request.plaintext, e.request.draw.ciphertext);
        }
      }
    }
  }

  lemma FieldStep(keys: Keys, v: Vault, tenant: Slice, wrapped: Bytes, plaintext: Bytes, out: Bytes)
    requires DeksAreSound(keys, v) && FreshOutput(v.ledger, plaintext, out)
    requires UnwrapDek(keys, v.ledger, tenant, wrapped).Ok?
    ensures var dek := UnwrapDek(keys, v.ledger, tenant, wrapped).value;
      var v' := v.(ledger := v.ledger[out := Sealing(dek, AadOf(DOMAIN_FIELD, tenant), plaintext)]);
      && |dek| == DEK_LEN && Grows(v, v') && DeksAreSound(keys, v') && MintedFor(keys, v', wrapped, tenant, dek)
  {
    UnwrapIsMinted(keys, v, tenant, wrapped);
    var dek := UnwrapDek(keys, v.ledger, tenant, wrapped).value;
    var v' := v.(ledger := v.ledger[out := Sealing(dek, AadOf(DOMAIN_FIELD, tenant), plaintext)]);
    forall x, t: Slice, d | MintedFor(keys, v', x, t, d) ensures MintedFor(keys, v, x, t, d) {
      if x == out {
        AadIsInjective(DOMAIN_FIELD, tenant, DOMAIN_DEK_WRAP, t);
      }
    }
  }

  lemma {:induction false} RunIsSound(keys: Keys, run: seq<Event>, n: nat)
    requires ValidRun(keys, run) && n <= |run|
    ensures DeksAreSound(keys, VaultAt(keys, run, n)) && FieldsHaveWriters(keys, run, n)
  {
    if n > 0 {
      RunIsSound(keys, run, n - 1);
      assert FreshAt(keys, run, n - 1);
      var v, v', e := VaultAt(keys, run, n - 1), VaultAt(keys, run, n), run[n - 1];
      if e.request.Encrypt? {
        EncryptCases(keys, v, e);
        forall out, t: Slice | out in v'.ledger && v'.ledger[out].aad == AadOf(DOMAIN_FIELD, t)
          ensures FieldHasWriter(keys, run, n, out, t)
        {
          WriterAfterStep(keys, run, n - 1, out, t);
        }
      } else {
        forall out, t: Slice | out in v'.ledger && v'.ledger[out].aad == AadOf(DOMAIN_FIELD, t)
          ensures FieldHasWriter(keys, run, n, out, t)
        {
          assert FieldHasWriter(keys, run, n - 1, out, t);
        }
      }
    }
  }

  lemma WriterAfterStep(keys: Keys, run: seq<Event>, n: nat, out: Bytes, t: Slice)
    requires n < |run| && run[n].request.Encrypt? && FreshAt(keys, run, n)
    requires DeksAreSound(keys, VaultAt(keys, run, n)) && FieldsHaveWriters(keys, run, n)
    requires out in VaultAt(keys, run, n + 1).ledger && VaultAt(keys, run, n + 1).ledger[out].aad == AadOf(DOMAIN_FIELD, t)
    ensures FieldHasWriter(keys, run, n + 1, out, t)
  {
    var v, v', e := VaultAt(keys, run, n), VaultAt(keys, run, n + 1), run[n];
    EncryptCases(keys, v, e);
    if out in v.ledger {
      assert FieldHasWriter(keys, run, n, out, t);
      var i: nat, w :| i < n && Wrote(keys, run, i, t, w, v.ledger[out].plaintext, out) && MintedFor(keys, v, w, t, v.ledger[out].key);
      assert MintedFor(keys, v', w, t, v'.ledger[out].key);
    } else {
      var Encrypted(c, w) := EncryptReply(keys, v, e).value;
      AadIsInjective(DOMAIN_FIELD, e.request.ctx.value.tenantId, DOMAIN_FIELD, t);
      assert Wrote(keys, run, n, t, w, v'.ledger[out].plaintext, out);
    }
  }

  lemma {:induction false} VaultGrows(keys: Keys, run: seq<Event>, i: nat, n: nat)
    requires ValidRun(keys, run) && i <= n <= |run|
    ensures Grows(VaultAt(keys, run, i), VaultAt(keys, run, n))
    decreases n
  {
    if i < n {
      VaultGrows(keys, run, i, n - 1);
      RunIsSound(keys, run, n - 1);
      assert FreshAt(keys, run, n - 1);
      if run[n - 1].request.Encrypt? {
        EncryptCases(keys, VaultAt(keys, run, n - 1), run[n - 1]);
      }
    }
  }

  /** A pair written for a tenant opens for that tenant, to what was written. */
  lemma WrittenOpens(keys: Keys, run: seq<Event>, i: nat, n: nat, t: Slice, w: Bytes, p: Bytes, c: Bytes)
    requires ValidRun(keys, run) && i < n <= |run| && Wrote(keys, run, i, t, w, p, c)
    ensures DecryptWith(keys, VaultAt(keys, run, n).ledger, t, w, c) == Ok(p)
  {
    assert FreshAt(keys, run, i);
    RunIsSound(keys, run, i);
    RunIsSound(keys, run, n);
    EncryptCases(keys, VaultAt(keys, run, i), run[i]);
    VaultGrows(keys, run, i + 1, n);
    var v, v1 := VaultAt(keys, run, n), VaultAt(keys, run, i + 1);
    var dek := v1.ledger[c].key;
    assert MintedFor(keys, v, w, t, dek);
    UnwrapIsMinted(keys, v, t, w);
  }

  /** Whatever opens for a tenant was written for that tenant. */
  lemma OpenedWasWritten(keys: Keys, run: seq<Event>, n: nat, t: Slice, w: Bytes, c: Bytes) returns (i: nat)
    requires ValidRun(keys, run) && n <= |run| && DecryptWith(keys, VaultAt(keys, run, n).ledger, t, w, c).Ok?
    ensures i < n && Wrote(keys, run, i, t, w, DecryptWith(keys, VaultAt(keys, run, n).ledger, t, w, c).value, c)
  {
    RunIsSound(keys, run, n);
    var v := VaultAt(keys, run, n);
    UnwrapIsMinted(keys, v, t, w);
    assert FieldHasWriter(keys, run, n, c, t);
    var j: nat, w' :| j < n && Wrote(keys, run, j, t, w', v.ledger[c].plaintext, c) && MintedFor(keys, v, w', t, v.ledger[c].key);
    assert w == w';
    i := j;
  }

  /** Over every run of the Guard, a decryption that passes the gate and the budget
      returns p exactly when that very pair came from an encryption of p for that tenant. */
  lemma TenantBoundEnvelope(keys: Keys, run: seq<Event>, n: nat, p: Bytes)
    requires ValidRun(keys, run) && n < |run| && run[n].request.DecryptField? && Stopped(run[n]).None?
    ensures DecryptReply(keys, VaultAt(keys, run, n), run[n]) == Done(p) <==>
      exists i: nat :: i < n && Wrote(keys, run, i, run[n].request.ctx.value.tenantId, run[n].request.wrappedDek, p, run[n].request.ciphertext)
  {
    var r, t := run[n].request, run[n].request.ctx.value.tenantId;
    if DecryptReply(keys, VaultAt(keys, run, n), run[n]) == Done(p) {
      var i := OpenedWasWritten(keys, run, n, t, r.wrappedDek, r.ciphertext);
    }
    forall i: nat | i < n && Wrote(keys, run, i, t, r.wrappedDek, p, r.ciphertext)
      ensures DecryptReply(keys, VaultAt(keys, run, n), run[n]) == Done(p)
    {
      WrittenOpens(keys, run, i, n, t, r.wrappedDek, p, r.ciphertext);
    }
  }

  /** What one tenant wrote is refused to every other, as a permission, never as a fault. */
  lemma OtherTenantsAreDenied(keys: Keys, run: seq<Event>, i: nat, n: nat, t: Slice, w: Bytes, p: Bytes)
    requires ValidRun(keys, run) && i < n < |run| && run[n].request.DecryptField? && Stopped(run[n]).None?
    requires Wrote(keys, run, i, t, w, p, run[n].request.ciphertext)
    requires run[n].request.ctx.value.tenantId != t
    ensures DecryptReply(keys, VaultAt(keys, run, n), run[n]) == Refused(PermissionDenied)
  {
    var r, t' := run[n].request, run[n].request.ctx.value.tenantId;
    var v := VaultAt(keys, run, n);
    RunIsSound(keys, run, n);
    WrittenOpens(keys, run, i, n, t, w, p, r.ciphertext);
    UnwrapIsMinted(keys, v, t', r.wrappedDek);
    if v.ledger[r.ciphertext].aad == AadOf(DOMAIN_FIELD, t') {
      AadIsInjective(DOMAIN_FIELD, t, DOMAIN_FIELD, t');
    }
  }

  // ------------------------------------------------- wrapped keys and callers

  /** Some call before n answered this tenant with this wrapped key. */
  ghost predicate Returned(keys: Keys, run: seq<Event>, n: nat, tenant: Slice, wrapped: Bytes)
    requires n <= |run|
  {
    exists i: nat, p, c :: i < n && Wrote(keys, run, i, tenant, wrapped, p, c)
  }

  /** What was minted was returned: a call that draws a data key never fails after that. */
  lemma {:induction false} MintedWasReturned(keys: Keys, run: seq<Event>, n: nat, t: Slice, w: Bytes, dek: Bytes)
    requires ValidRun(keys, run) && n <= |run| && MintedFor(keys, VaultAt(keys, run, n), w, t, dek)
    ensures Returned(keys, run, n, t, w)
  {
    var v, v', e := VaultAt(keys, run, n - 1), VaultAt(keys, run, n), run[n - 1];
    assert FreshAt(keys, run, n - 1);
    RunIsSound(keys, run, n - 1);
    if MintedFor(keys, v, w, t, dek) {
      MintedWasReturned(keys, run, n - 1, t, w, dek);
      var i: nat, p, c :| i < n - 1 && Wrote(keys, run, i, t, w, p, c);
      assert Wrote(keys, run, i, t, w, p, c);
    } else {
      EncryptCases(keys, v, e);
      NewlyMinted(keys, v, e, t, w, dek);
      assert Wrote(keys, run, n - 1, t, w, e.request.plaintext, e.request.draw.ciphertext);
    }
  }

  /** A wrapped key that was not there before is the one this call drew and returns. */
  lemma NewlyMinted(keys: Keys, v: Vault, e: Event, t: Slice, w: Bytes, dek: Bytes)
    requires e.request.Encrypt? ==> FreshDraw(v, e.request)
    requires DeksAreSound(keys, v) && MintedFor(keys, Next(keys, v, e), w, t, dek) && !MintedFor(keys, v, w, t, dek)
    ensures e.request.Encrypt? && e.request.ctx.Some? && e.request.ctx.value.tenantId == t && e.request.wrappedDek == []
    ensures EncryptReply(keys, v, e) == Done(Encrypted(e.request.draw.ciphertext, w))
  {
    EncryptCases(keys, v, e);
    var tenant, v' := e.request.ctx.value.tenantId, Next(keys, v, e);
    var Encrypted(c, w') := EncryptReply(keys, v, e).value;
    if w == c {
      AadIsInjective(DOMAIN_FIELD, tenant, DOMAIN_DEK_WRAP, t);
    }
    AadIsInjective(DOMAIN_DEK_WRAP, tenant, DOMAIN_DEK_WRAP, t);
  }

  /** A wrapped key unwraps for a tenant exactly when some call returned it to that tenant. */
  lemma UnwrapsExactly(keys: Keys, run: seq<Event>, n: nat, t: Slice, w: Bytes)
    requires ValidRun(keys, run) && n <= |run|
    ensures UnwrapDek(keys, VaultAt(keys, run, n).ledger, t, w).Ok? <==> Returned(keys, run, n, t, w)
  {
    var v := VaultAt(keys, run, n);
    RunIsSound(keys, run, n);
    UnwrapIsMinted(keys, v, t, w);
    if UnwrapDek(keys, v.ledger, t, w).Ok? {
      MintedWasReturned(keys, run, n, t, w, UnwrapDek(keys, v.ledger, t, w).value);
    }
    forall i: nat, p, c | i < n && Wrote(keys, run, i, t, w, p, c) ensures UnwrapDek(keys, v.ledger, t, w).Ok? {
      WrittenOpens(keys, run, i, n, t, w, p, c);
    }
  }

  /** How a call fails over a wrapped key it cannot open: as a permission, if the key
      encryption key is there and can open anything at all. */
  ghost function Unopened(keys: Keys, wrapped: Bytes): Status
  {
    if keys.kek in keys.material && (|keys.material[keys.kek]| == 32 || |wrapped| <= 12) then PermissionDenied else Internal
  }

  /** An encryption with a wrapped key, past gate and budget, mints nothing. It is done
      exactly when some call returned that key to this tenant, and hands back that key. */
  lemma SuppliedKey(keys: Keys, run: seq<Event>, n: nat)
    requires ValidRun(keys, run) && n < |run| && run[n].request.Encrypt? && Stopped(run[n]).None? && run[n].request.wrappedDek != []
    ensures var r, t, v := run[n].request, run[n].request.ctx.value.tenantId, VaultAt(keys, run, n);
      && Next(keys, v, run[n]).deks == v.deks
      && EncryptReply(keys, v, run[n])
         == if Returned(keys, run, n, t, r.wrappedDek) then Done(Encrypted(r.draw.ciphertext, r.wrappedDek))
            else Refused(Unopened(keys, r.wrappedDek))
  {
    var t, v := run[n].request.ctx.value.tenantId, VaultAt(keys, run, n);
    UnwrapsExactly(keys, run, n, t, run[n].request.wrappedDek);
    RunIsSound(keys, run, n);
    UnwrapIsMinted(keys, v, t, run[n].request.wrappedDek);
  }

  /** An encryption without one, past gate and budget, is done exactly when there is a
      key encryption key of 32 bytes; it then draws one data key and returns it wrapped. */
  lemma FirstWrite(keys: Keys, run: seq<Event>, n: nat)
    requires ValidRun(keys, run) && n < |run| && run[n].request.Encrypt? && Stopped(run[n]).None? && run[n].request.wrappedDek == []
    ensures var r, v, v' := run[n].request, VaultAt(keys, run, n), Next(keys, VaultAt(keys, run, n), run[n]);
      if keys.kek in keys.material && |keys.material[keys.kek]| == 32 then
        && EncryptReply(keys, v, run[n]) == Done(Encrypted(r.draw.ciphertext, r.draw.wrapped))
        && v'.deks == v.deks + {r.draw.dek} && r.draw.dek !in v.deks
        && MintedFor(keys, v', r.draw.wrapped, r.ctx.value.tenantId, r.draw.dek)
        && !Returned(keys, run, n, r.ctx.value.tenantId, r.draw.wrapped)
      else EncryptReply(keys, v, run[n]) == Refused(Internal) && v' == v
  {
    var r, v := run[n].request, VaultAt(keys, run, n);
    assert FreshAt(keys, run, n);
    RunIsSound(keys, run, n);
    UnwrapsExactly(keys, run, n, r.ctx.value.tenantId, r.draw.wrapped);
    UnwrapIsMinted(keys, v, r.ctx.value.tenantId, r.draw.wrapped);
    if keys.kek in keys.material && |keys.material[keys.kek]| == 32 {
      MintStep(keys, v, r.ctx.value.tenantId, [], r);
      var (v1, w) := Minted(keys, v, r.ctx.value.tenantId, [], r.draw).value;
      UnwrapIsMinted(keys, v1, r.ctx.value.tenantId, w);
      EncryptCases(keys, v, run[n]);
    }
  }

  /** A row's second field goes under the row's wrapped key, and both fields open with it. */
  lemma RowSharesItsKey(keys: Keys, run: seq<Event>, i: nat, j: nat, n: nat, t: Slice, w: Bytes, p: Bytes, c: Bytes)
    requires ValidRun(keys, run) && i < j < n <= |run| && Wrote(keys, run, i, t, w, p, c)
    requires run[j].request.Encrypt? && Stopped(run[j]).None? && run[j].request.ctx.value.tenantId == t && run[j].request.wrappedDek == w
    ensures var p', c' := run[j].request.plaintext, run[j].request.draw.ciphertext;
      && Wrote(keys, run, j, t, w, p', c')
      && DecryptWith(keys, VaultAt(keys, run, n).ledger, t, w, c) == Ok(p)
      && DecryptWith(keys, VaultAt(keys, run, n).ledger, t, w, c') == Ok(p')
  {
    WrittenOpens(keys, run, i, j, t, w, p, c);
    SuppliedKey(keys, run, j);
    WrittenOpens(keys, run, i, n, t, w, p, c);
    WrittenOpens(keys, run, j, n, t, w, run[j].request.plaintext, run[j].request.draw.ciphertext);
  }

  /** A pair that no call wrote for the tenant is refused, and how. */
  lemma UnwrittenIsRefused(keys: Keys, run: seq<Event>, n: nat)
    requires ValidRun(keys, run) && n < |run| && run[n].request.DecryptField? && Stopped(run[n]).None?
    requires forall i: nat, p | i < n :: !Wrote(keys, run, i, run[n].request.ctx.value.tenantId, run[n].request.wrappedDek, p, run[n].request.ciphertext)
    ensures DecryptReply(keys, VaultAt(keys, run, n), run[n]) == Refused(Unopened(keys, run[n].request.wrappedDek))
  {
    var r, t, v := run[n].request, run[n].request.ctx.value.tenantId, VaultAt(keys, run, n);
    RunIsSound(keys, run, n);
    UnwrapIsMinted(keys, v, t, r.wrappedDek);
    if DecryptWith(keys, v.ledger, t, r.wrappedDek, r.ciphertext).Ok? {
      var i := OpenedWasWritten(keys, run, n, t, r.wrappedDek, r.ciphertext);
    }
  }

  /** The blind index as an ideal keyed hash of the frame. */
  datatype Index = Index(material: Bytes, frame: Bytes)

  function BlindIndex(material: Bytes, tenant: Slice, input: Slice): Index
  {
    Index(material, IndexFrame(tenant, input))
  }

  /** Under one key, indexes are equal exactly for equal inputs of one tenant. */
  lemma IndexesSeparateTenants(material: Bytes, t: Slice, i: Slice, t': Slice, i': Slice)
    ensures BlindIndex(material, t, i) == BlindIndex(material, t', i') <==> t == t' && i == i'
  {
    if BlindIndex(material, t, i) == BlindIndex(material, t', i') {
      IndexFrameIsInjective(t, i, t', i');
    }
  }
}
