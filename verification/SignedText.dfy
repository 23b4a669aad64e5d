/**
 What rests on canonical text: the request hash under which an approval is
 resumed, and the signature of an escalation envelope. Hash and MAC are
 parameters about which nothing is assumed.
 */
module SignedText {
  import opened JsonText
  import opened CanonicalJson

  // ---------------------------------------------------------------------
  // The approval request hash
  // ---------------------------------------------------------------------

  const NUL: Unit := 0

  /** The chunks fed to the hash, delimited by NUL. */
  function Preimage(serverAlias: Text, toolName: Text, params: Value, correlationId: Text): Text {
    serverAlias + ([NUL] + (toolName + ([NUL] + (Serialize(params) + ([NUL] + correlationId)))))
  }

  /** Equal as JSON values up to key order; `undefined` equals only itself. */
  ghost predicate SameParams(v: Value, w: Value) {
    v.Undefined? == w.Undefined? && Meaning(v) == Meaning(w)
  }

  lemma NulSplits(a: Text, x: Text, b: Text, y: Text)
    requires NUL !in a && NUL !in b
    requires a + ([NUL] + x) == b + ([NUL] + y)
    ensures a == b && x == y
  {
    var s, t := a + ([NUL] + x), b + ([NUL] + y);
    assert s[|a|] == NUL && t[|b|] == NUL;
    assert forall i | 0 <= i < |a| :: s[i] == a[i] && a[i] in a;
    assert forall i | 0 <= i < |b| :: t[i] == b[i] && b[i] in b;
    assert |a| == |b|;
    Dropped(a, [NUL] + x);
    Dropped(b, [NUL] + y);
    Dropped([NUL], x);
    Dropped([NUL], y);
  }

  lemma UndefinedTextApart(v: Value)
    requires v != Undefined
    ensures Serialize(v) != UNDEFINED_TEXT
  {
    if v.Number? { assert v.text[0] in v.text; }
    assert Serialize(v)[0] != UNDEFINED_TEXT[0];
  }

  lemma EqualParamTexts(v: Value, w: Value)
    requires WellFormed(v) && WellFormed(w)
    ensures Serialize(v) == Serialize(w) <==> SameParams(v, w)
  {
    if v != Undefined && w != Undefined {
      EqualTextExactly(v, w);
    } else if v != Undefined {
      UndefinedTextApart(v);
    } else if w != Undefined {
      UndefinedTextApart(w);
    }
  }

  /**
   The preimage determines the request: two requests of NUL-free server and
   tool names have the same preimage exactly when they name the same server,
   tool and correlation and their parameters are equal up to key order.
   */
  lemma PreimageExactly(s1: Text, t1: Text, p1: Value, c1: Text, s2: Text, t2: Text, p2: Value, c2: Text)
    requires NUL !in s1 && NUL !in t1 && NUL !in s2 && NUL !in t2
    requires WellFormed(p1) && WellFormed(p2)
    ensures Preimage(s1, t1, p1, c1) == Preimage(s2, t2, p2, c2)
       <==> s1 == s2 && t1 == t2 && SameParams(p1, p2) && c1 == c2
  {
    EqualParamTexts(p1, p2);
    SerializePrintable(p1);
    SerializePrintable(p2);
    if Preimage(s1, t1, p1, c1) == Preimage(s2, t2, p2, c2) {
      var x1, x2 := Serialize(p1) + ([NUL] + c1), Serialize(p2) + ([NUL] + c2);
      NulSplits(s1, t1 + ([NUL] + x1), s2, t2 + ([NUL] + x2));
      NulSplits(t1, x1, t2, x2);
      NulSplits(Serialize(p1), c1, Serialize(p2), c2);
    }
  }

  /**
   The resume contract: resubmitting the same call hashes the same however its
   parameters' keys are ordered, and a different call hashes the same only by a
   collision of the hash itself.
   */
  lemma ResumeContract<H>(hash: Text -> H, s1: Text, t1: Text, p1: Value, c1: Text, s2: Text, t2: Text, p2: Value,
      c2: Text)
    requires NUL !in s1 && NUL !in t1 && NUL !in s2 && NUL !in t2
    requires WellFormed(p1) && WellFormed(p2)
    ensures s1 == s2 && t1 == t2 && SameParams(p1, p2) && c1 == c2
        ==> hash(Preimage(s1, t1, p1, c1)) == hash(Preimage(s2, t2, p2, c2))
    ensures hash(Preimage(s1, t1, p1, c1)) == hash(Preimage(s2, t2, p2, c2))
        ==> (s1 == s2 && t1 == t2 && SameParams(p1, p2) && c1 == c2)
            || exists x, y :: x != y && hash(x) == hash(y)
  {
    PreimageExactly(s1, t1, p1, c1, s2, t2, p2, c2);
  }

  // ---------------------------------------------------------------------
  // The escalation envelope
  // ---------------------------------------------------------------------

  const ITEM: Text := [0x69, 0x74, 0x65, 0x6D]
  const HISTORY: Text := [0x68, 0x69, 0x73, 0x74, 0x6F, 0x72, 0x79]
  const CORRELATION_ID: Text :=
    [0x63, 0x6F, 0x72, 0x72, 0x65, 0x6C, 0x61, 0x74, 0x69, 0x6F, 0x6E, 0x5F, 0x69, 0x64]
  const CAUSE: Text := [0x63, 0x61, 0x75, 0x73, 0x65]
  const NONCE: Text := [0x6E, 0x6F, 0x6E, 0x63, 0x65]
  const EXPIRY: Text := [0x65, 0x78, 0x70, 0x69, 0x72, 0x79]
  const SIGNATURE: Text := [0x73, 0x69, 0x67, 0x6E, 0x61, 0x74, 0x75, 0x72, 0x65]

  /** `mac(secret, text)` in base64url, and the bytes a base64url text decodes to. */
  datatype Scheme = Scheme(mac: (Text, Text) -> Text, bytes: Text -> seq<int>)

  datatype Verdict = Verified | NotAnObject | MissingSignature | InvalidSignature

  function SignEnvelope(scheme: Scheme, unsigned: Value, secret: Text): Text {
    (scheme.mac)(secret, Serialize(unsigned))
  }

  function Without(fields: seq<Field>, key: Text): seq<Field>
    decreases |fields|
  {
    if fields == [] then []
    else (if fields[0].key == key then [] else [fields[0]]) + Without(fields[1..], key)
  }

  function VerifyEnvelopeSignature(scheme: Scheme, envelope: Value, secret: Text): Verdict {
    if !envelope.Obj? then NotAnObject
    else if SIGNATURE !in Keys(envelope.fields) then MissingSignature
    else
      var signature := At(envelope.fields, SIGNATURE);
      if !signature.Str? || signature.s == [] then MissingSignature
      else
        var expected := SignEnvelope(scheme, Obj(Without(envelope.fields, SIGNATURE)), secret);
        if (scheme.bytes)(expected) == (scheme.bytes)(signature.s) then Verified else InvalidSignature
  }

  function UnsignedFields(item: Value, history: Value, correlationId: Text, cause: Text, nonce: Text,
      expiry: NumText): seq<Field>
  {
    [Field(ITEM, item), Field(HISTORY, history), Field(CORRELATION_ID, Str(correlationId)), Field(CAUSE, Str(cause)),
     Field(NONCE, Str(nonce)), Field(EXPIRY, Number(expiry))]
  }

  function AssembleEscalationEnvelope(
      scheme: Scheme, item: Value, history: Value, correlationId: Text, cause: Text, nonce: Text, expiry: NumText,
        secret: Text)
    : Value
  {
    var unsigned := UnsignedFields(item, history, correlationId, cause, nonce, expiry);
    Obj(unsigned + [Field(SIGNATURE, Str(SignEnvelope(scheme, Obj(unsigned), secret)))])
  }

  lemma {:induction false} KeptFieldsConcat(a: seq<Field>, b: seq<Field>)
    ensures KeptFields(a + b) == KeptFields(a) + KeptFields(b)
    decreases |a|
  {
    if a == [] {
      assert a + b == b;
    } else {
      assert (a + b)[0] == a[0] && (a + b)[1..] == a[1..] + b;
      KeptFieldsConcat(a[1..], b);
    }
  }

  lemma {:induction false} WithoutLast(fields: seq<Field>, last: Field)
    requires last.key !in Keys(fields)
    ensures Without(fields + [last], last.key) == fields
    ensures last.key in Keys(fields + [last]) && At(fields + [last], last.key) == last.value
    decreases |fields|
  {
    var all := fields + [last];
    assert Keys(all)[|fields|] == last.key;
    if fields == [] {
      assert all[1..] == [];
    } else {
      assert all[0] == fields[0] && all[1..] == fields[1..] + [last];
      assert fields[0].key == Keys(fields)[0];
      assert Keys(fields[1..]) == Keys(fields)[1..];
      WithoutLast(fields[1..], last);
      assert forall i | 0 <= i < |fields| :: Keys(fields)[i] == all[i].key;
      assert Find(all, last.key) == |fields|;
    }
  }

  lemma UnsignedDistinct(item: Value, history: Value, correlationId: Text, cause: Text, nonce: Text, expiry: NumText)
    ensures
      var f := UnsignedFields(item, history, correlationId, cause, nonce, expiry);
      DistinctKeys(f) && SIGNATURE !in Keys(f)
  {}

  /** What JSON keeps of a signed envelope is what it keeps of the content, with the signature behind. */
  lemma KeptOfSigned(unsigned: seq<Field>, signature: Text)
    requires DistinctKeys(unsigned) && SIGNATURE !in Keys(unsigned)
    ensures Kept(Obj(unsigned + [Field(SIGNATURE, Str(signature))]))
      == Obj(KeptFields(unsigned) + [Field(SIGNATURE, Str(signature))])
    ensures SIGNATURE !in Keys(KeptFields(unsigned))
  {
    KeptSigned(unsigned, Field(SIGNATURE, Str(signature)));
    KeptFieldsAre(unsigned);
  }

  lemma KeptSigned(unsigned: seq<Field>, last: Field)
    requires last.value.Str?
    ensures KeptFields(unsigned + [last]) == KeptFields(unsigned) + [last]
  {
    KeptFieldsConcat(unsigned, [last]);
    assert [last][1..] == [];
    assert KeptFields([last]) == [last];
  }

  /**
   An assembled envelope that was sent as JSON and parsed on the other side
   verifies under the same secret, whatever its item and history hold that JSON
   can carry (`undefined` fields included), for any MAC with nonempty output.
   */
  lemma AssembledVerifiesAfterTheWire(
      scheme: Scheme, item: Value, history: Value, correlationId: Text, cause: Text, nonce: Text, expiry: NumText,
        secret: Text)
    requires WellFormed(item) && WellFormed(history) && NoOpaque(item) && NoOpaque(history)
    requires forall k, t :: (scheme.mac)(k, t) != []
    ensures
      var envelope := AssembleEscalationEnvelope(scheme, item, history, correlationId, cause, nonce, expiry, secret);
      var received := Parse(Stringify(envelope).value);
      received.Some? && VerifyEnvelopeSignature(scheme, received.value, secret) == Verified
  {
    var unsigned := UnsignedFields(item, history, correlationId, cause, nonce, expiry);
    UnsignedDistinct(item, history, correlationId, cause, nonce, expiry);
    assert WellFormed(Obj(unsigned)) && NoOpaque(Obj(unsigned));
    SignedVerifies(scheme, unsigned, secret);
  }

  lemma SignedVerifies(scheme: Scheme, unsigned: seq<Field>, secret: Text)
    requires WellFormed(Obj(unsigned)) && NoOpaque(Obj(unsigned)) && SIGNATURE !in Keys(unsigned)
    requires SignEnvelope(scheme, Obj(unsigned), secret) != []
    ensures
      var received := Parse(Stringify(Obj(unsigned
        + [Field(SIGNATURE, Str(SignEnvelope(scheme, Obj(unsigned), secret)))])).value);
      received.Some? && VerifyEnvelopeSignature(scheme, received.value, secret) == Verified
  {
    var signature := Field(SIGNATURE, Str(SignEnvelope(scheme, Obj(unsigned), secret)));
    Travels(Obj(unsigned + [signature]));
    KeptOfSigned(unsigned, signature.value.s);
    SignedTextSurvivesExactly(unsigned);
    ResignedVerifies(scheme, KeptFields(unsigned), signature.value.s, secret);
  }

  /** An envelope whose last field is the MAC of the others verifies. */
  lemma ResignedVerifies(scheme: Scheme, unsigned: seq<Field>, signature: Text, secret: Text)
    requires SIGNATURE !in Keys(unsigned)
    requires signature == SignEnvelope(scheme, Obj(unsigned), secret) != []
    ensures VerifyEnvelopeSignature(scheme, Obj(unsigned + [Field(SIGNATURE, Str(signature))]), secret) == Verified
  {
    WithoutLast(unsigned, Field(SIGNATURE, Str(signature)));
  }

  /** The text the signature is recomputed over is the text that was signed exactly when JSON could carry it. */
  lemma SignedTextSurvivesExactly(unsigned: seq<Field>)
    requires WellFormed(Obj(unsigned))
    ensures Serialize(Kept(Obj(unsigned))) == Serialize(Obj(unsigned)) <==> NoOpaque(Obj(unsigned))
  {
    Travels(Obj(unsigned));
    TripExactly(Obj(unsigned));
  }

  /**
   An accepted envelope cannot have been altered: two envelopes accepted with
   the same signature have the same content, or the MAC collides on two
   different texts.
   */
  lemma AcceptedMeansUnaltered(scheme: Scheme, e1: Value, e2: Value, secret: Text)
    requires WellFormed(e1) && WellFormed(e2)
    requires VerifyEnvelopeSignature(scheme, e1, secret) == Verified
    requires VerifyEnvelopeSignature(scheme, e2, secret) == Verified
    requires At(e1.fields, SIGNATURE) == At(e2.fields, SIGNATURE)
    ensures Meaning(Obj(Without(e1.fields, SIGNATURE))) == Meaning(Obj(Without(e2.fields, SIGNATURE)))
         || exists x, y :: x != y && (scheme.bytes)((scheme.mac)(secret, x)) == (scheme.bytes)((scheme.mac)(secret, y))
  {
    var u1, u2 := Obj(Without(e1.fields, SIGNATURE)), Obj(Without(e2.fields, SIGNATURE));
    WithoutWellFormed(e1.fields, SIGNATURE);
    WithoutWellFormed(e2.fields, SIGNATURE);
    EqualTextExactly(u1, u2);
    assert (scheme.bytes)((scheme.mac)(secret, Serialize(u1))) == (scheme.bytes)((scheme.mac)(secret, Serialize(u2)));
  }

  lemma {:induction false} WithoutWellFormed(fields: seq<Field>, key: Text)
    requires WellFormed(Obj(fields))
    ensures WellFormed(Obj(Without(fields, key)))
    ensures forall f | f in Without(fields, key) :: f in fields
    decreases |fields|
  {
    if fields != [] {
      var rest := fields[1..];
      AtCons(fields);
      WithoutWellFormed(rest, key);
      var r := Without(fields, key);
      var tail := Without(rest, key);
      if fields[0].key != key {
        forall i, j | 0 <= i < j < |r| ensures r[i].key != r[j].key {
          assert r[j] == tail[j-1] && tail[j-1] in tail;
          var n :| 0 <= n < |rest| && rest[n] == tail[j-1];
          assert fields[n+1] == rest[n];
          if i > 0 { assert r[i] == tail[i-1]; }
        }
        forall i | 0 <= i < |r| ensures WellFormed(r[i].value) {
          if i > 0 { assert r[i] == tail[i-1]; }
        }
      } else {
        assert r == tail;
      }
    }
  }
}
