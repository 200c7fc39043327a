/** The compact form of an issued SD-JWT VC. JSON, hashing, salts and the signature
    are parameters. */
module SdJwt {
  import opened Wrappers
  import opened Text
  import opened Base64Url

  type Bytes = seq<Byte>
  type Json = string

  datatype Header = Header(alg: string, typ: string, kid: string)

  datatype Payload = Payload(iss: string, iat: int, exp: int, vct: string, cnf: Json, status: Json,
                             sd: seq<string>, sdAlg: string)

  datatype Claim = Claim(name: string, value: Json)

  /** What the build calls out to. `disclosure` is the JSON array of salt, name and value. */
  datatype Engine = Engine(
    headerJson: Header -> Bytes,
    payloadJson: Payload -> Bytes,
    disclosureJson: (string, Claim) -> Bytes,
    digest: string -> string,
    sign: string -> Option<Bytes>)

  /** The parts of a credential: three signed segments, then one per disclosure. */
  datatype Parts = Parts(header: Bytes, payload: Bytes, signature: Bytes, disclosures: seq<Bytes>)

  // ---- Writing ----

  function Tail(disclosures: seq<Bytes>): string {
    if disclosures == [] then "" else Tail(disclosures[..|disclosures| - 1]) + "~" + Encode(disclosures[|disclosures| - 1])
  }

  function SigningInput(header: Bytes, payload: Bytes): string {
    Encode(header) + "." + Encode(payload)
  }

  function Compact(p: Parts): string {
    SigningInput(p.header, p.payload) + "." + Encode(p.signature) + Tail(p.disclosures) + "~"
  }

  // ---- Reading ----

  function DecodeAll(segments: seq<string>): Option<seq<Bytes>> {
    if segments == [] then Some([])
    else match (Decode(segments[0]), DecodeAll(segments[1..]))
         case (Some(b), Some(rest)) => Some([b] + rest)
         case _ => None
  }

  /** Split on '~' into the signed part, the disclosures and the empty rest; split the
      signed part on '.' into three. */
  function Parse(s: string): Option<Parts> {
    var segments := Split(s, '~');
    if |segments| < 2 || segments[|segments| - 1] != "" then None
    else
      var jws := Split(segments[0], '.');
      if |jws| != 3 then None
      else match (DecodeAll(jws), DecodeAll(segments[1..|segments| - 1]))
           case (Some(b), Some(ds)) => if |b| == 3 then Some(Parts(b[0], b[1], b[2], ds)) else None
           case _ => None
  }

  function EncodeAll(bs: seq<Bytes>): seq<string> {
    if bs == [] then [] else [Encode(bs[0])] + EncodeAll(bs[1..])
  }

  lemma {:induction false} DecodeAllUndoesEncodeAll(bs: seq<Bytes>)
    ensures DecodeAll(EncodeAll(bs)) == Some(bs)
  {
    if bs != [] {
      DecodeUndoesEncode(bs[0]);
      DecodeAllUndoesEncodeAll(bs[1..]);
      var es := EncodeAll(bs);
      assert es[0] == Encode(bs[0]) && es[1..] == EncodeAll(bs[1..]);
      assert [bs[0]] + bs[1..] == bs;
    }
  }

  lemma {:induction false} EncodeAllAppend(bs: seq<Bytes>, b: Bytes)
    ensures EncodeAll(bs + [b]) == EncodeAll(bs) + [Encode(b)]
  {
    if bs == [] {
      assert bs + [b] == [b];
      assert [b][1..] == [];
    } else {
      EncodeAllAppend(bs[1..], b);
      assert (bs + [b])[1..] == bs[1..] + [b];
    }
  }

  lemma CleanSum(a: string, c: char, b: string)
    requires '~' !in a && '~' !in b && c != '~'
    ensures '~' !in a + [c] + b
  {
  }

  /** The segments a reader finds behind a text without '~'. */
  lemma {:induction false} TailSplits(front: string, disclosures: seq<Bytes>)
    requires '~' !in front
    ensures Split(front + Tail(disclosures), '~') == [front] + EncodeAll(disclosures)
  {
    hide Split, Encode, Decode;
    if disclosures == [] {
      SplitWhole(front, '~');
      assert front + Tail([]) == front;
    } else {
      var before, last := disclosures[..|disclosures| - 1], disclosures[|disclosures| - 1];
      TailSplits(front, before);
      assert front + Tail(disclosures) == (front + Tail(before)) + ['~'] + Encode(last);
      SplitAtSeparator(front + Tail(before), Encode(last), '~');
      DecodeUndoesEncode(last);
      SplitWhole(Encode(last), '~');
      EncodeAllAppend(before, last);
      assert disclosures == before + [last];
    }
  }

  lemma JwsSplits(header: Bytes, payload: Bytes, signature: Bytes)
    ensures var jws := SigningInput(header, payload) + "." + Encode(signature);
            Split(jws, '.') == [Encode(header), Encode(payload), Encode(signature)] && '~' !in jws
  {
    hide Split;
    DecodeUndoesEncode(header);
    DecodeUndoesEncode(payload);
    DecodeUndoesEncode(signature);
    SplitWhole(Encode(header), '.');
    SplitWhole(Encode(payload), '.');
    SplitWhole(Encode(signature), '.');
    SplitAtSeparator(Encode(header), Encode(payload), '.');
    SplitAtSeparator(SigningInput(header, payload), Encode(signature), '.');
    CleanSum(Encode(header), '.', Encode(payload));
    CleanSum(SigningInput(header, payload), '.', Encode(signature));
  }

  lemma {:induction false} EncodeAllAt(bs: seq<Bytes>)
    ensures |EncodeAll(bs)| == |bs| && forall i :: 0 <= i < |bs| ==> EncodeAll(bs)[i] == Encode(bs[i])
  {
    if bs != [] {
      EncodeAllAt(bs[1..]);
    }
  }

  /** The segments between the '~': the signed part, the disclosures, and nothing. */
  lemma CompactSegments(p: Parts)
    ensures Split(Compact(p), '~') == [Encode(p.header) + "." + Encode(p.payload) + "." + Encode(p.signature)]
                                      + EncodeAll(p.disclosures) + [""]
  {
    hide Split, Encode, Tail, EncodeAll;
    var jws := SigningInput(p.header, p.payload) + "." + Encode(p.signature);
    JwsSplits(p.header, p.payload, p.signature);
    TailSplits(jws, p.disclosures);
    var body := jws + Tail(p.disclosures);
    assert Compact(p) == body + ['~'] + "";
    SplitAtSeparator(body, "", '~');
    SplitWhole("", '~');
  }

  /** A reader gets back exactly the header, payload, signature and disclosures. */
  lemma ParseUndoesCompact(p: Parts)
    ensures Parse(Compact(p)) == Some(p)
  {
    hide Split, Encode, Tail;
    var jws := SigningInput(p.header, p.payload) + "." + Encode(p.signature);
    JwsSplits(p.header, p.payload, p.signature);
    CompactSegments(p);
    var segments := Split(Compact(p), '~');
    assert segments[1..|segments| - 1] == EncodeAll(p.disclosures);
    DecodeAllUndoesEncodeAll(p.disclosures);
    JwsDecodes(p.header, p.payload, p.signature);
  }

  lemma JwsDecodes(a: Bytes, b: Bytes, c: Bytes)
    ensures DecodeAll([Encode(a), Encode(b), Encode(c)]) == Some([a, b, c])
  {
    hide Encode, Decode;
    EncodeAllAppend([], a);
    EncodeAllAppend([a], b);
    EncodeAllAppend([a, b], c);
    assert [] + [a] == [a] && [a] + [b] == [a, b] && [a, b] + [c] == [a, b, c];
    DecodeAllUndoesEncodeAll([a, b, c]);
  }

  /** Distinct parts never serialise alike. */
  lemma CompactIsInjective(p: Parts, q: Parts)
    requires Compact(p) == Compact(q)
    ensures p == q
  {
    ParseUndoesCompact(p);
    ParseUndoesCompact(q);
  }

  // ---- Building ----

  ghost predicate DigestsMatch(e: Engine, sd: seq<string>, disclosures: seq<Bytes>) {
    |sd| == |disclosures| && forall i :: 0 <= i < |sd| ==> sd[i] == e.digest(Encode(disclosures[i]))
  }

  /** Issues the credential: one salted disclosure and one digest per claim, in order.
      None reports a failed signature. */
  method BuildSdJwtVc(e: Engine, kid: string, iss: string, vct: string, cnf: Json, status: Json, iat: int, exp: int,
                      claims: seq<Claim>, salts: seq<string>)
    returns (credential: Option<string>)
    requires |salts| == |claims|
    ensures var sd := seq(|claims|, i requires 0 <= i < |claims| => e.digest(Encode(e.disclosureJson(salts[i], claims[i]))));
            var header := e.headerJson(Header("ES256", "vc+sd-jwt", kid + "#assertion-key-01"));
            var payload := e.payloadJson(Payload(iss, iat, exp, vct, cnf, status, sd, "sha-256"));
            var input := Encode(header) + "." + Encode(payload);
            && (credential.Some? <==> e.sign(input).Some?)
            && (credential.Some? ==>
                  var segments := Split(credential.value, '~');
                  && |segments| == |claims| + 2 && segments[|claims| + 1] == ""
                  && segments[0] == input + "." + Encode(e.sign(input).value)
                  && (forall i :: 0 <= i < |claims| ==> segments[i + 1] == Encode(e.disclosureJson(salts[i], claims[i])))
                  && Parse(credential.value).Some?
                  && var parts := Parse(credential.value).value;
                     && parts.header == header && parts.payload == payload
                     && parts.signature == e.sign(input).value
                     && |parts.disclosures| == |claims| && DigestsMatch(e, sd, parts.disclosures))
  {
    var disclosures, sd := Disclose(e, claims, salts);
    assert sd == seq(|claims|, i requires 0 <= i < |claims| => e.digest(Encode(e.disclosureJson(salts[i], claims[i]))));
    var header := e.headerJson(Header("ES256", "vc+sd-jwt", kid + "#assertion-key-01"));
    var payload := e.payloadJson(Payload(iss, iat, exp, vct, cnf, status, sd, "sha-256"));
    var signature := e.sign(Encode(header) + "." + Encode(payload));
    if signature.None? {
      return None;
    }
    var text := Serialise(Parts(header, payload, signature.value, disclosures));
    ReadBack(Parts(header, payload, signature.value, disclosures));
    hide Split, Encode, Decode, Parse, EncodeAll, Compact;
    credential := Some(text);
  }

  method Disclose(e: Engine, claims: seq<Claim>, salts: seq<string>) returns (disclosures: seq<Bytes>, sd: seq<string>)
    requires |salts| == |claims|
    ensures |disclosures| == |sd| == |claims|
    ensures forall i :: 0 <= i < |claims| ==> disclosures[i] == e.disclosureJson(salts[i], claims[i])
    ensures forall i :: 0 <= i < |claims| ==> sd[i] == e.digest(Encode(disclosures[i]))
  {
    hide Encode;
    disclosures, sd := [], [];
    for i := 0 to |claims|
      invariant |disclosures| == |sd| == i
      invariant forall k :: 0 <= k < i ==> disclosures[k] == e.disclosureJson(salts[k], claims[k])
      invariant forall k :: 0 <= k < i ==> sd[k] == e.digest(Encode(disclosures[k]))
    {
      var disclosure := e.disclosureJson(salts[i], claims[i]);
      sd := sd + [e.digest(Encode(disclosure))];
      disclosures := disclosures + [disclosure];
    }
  }

  /** The signed part, then each disclosure, each followed by '~'. */
  method Serialise(p: Parts) returns (text: string)
    ensures text == Compact(p)
  {
    hide Encode;
    text := Encode(p.header) + "." + Encode(p.payload) + "." + Encode(p.signature);
    ghost var jws := text;
    for i := 0 to |p.disclosures|
      invariant text == jws + Tail(p.disclosures[..i])
    {
      assert p.disclosures[..i + 1][..i] == p.disclosures[..i];
      text := text + "~";
      text := text + Encode(p.disclosures[i]);
    }
    assert p.disclosures[..|p.disclosures|] == p.disclosures;
    text := text + "~";
  }

  lemma ReadBack(p: Parts)
    ensures Parse(Compact(p)) == Some(p)
    ensures var segments := Split(Compact(p), '~');
            && |segments| == |p.disclosures| + 2 && segments[|p.disclosures| + 1] == ""
            && segments[0] == Encode(p.header) + "." + Encode(p.payload) + "." + Encode(p.signature)
            && forall i :: 0 <= i < |p.disclosures| ==> segments[i + 1] == Encode(p.disclosures[i])
  {
    hide Split, Encode, Compact, Parse, EncodeAll;
    ParseUndoesCompact(p);
    CompactSegments(p);
    EncodeAllAt(p.disclosures);
  }

  /** With a collision-free digest and distinct disclosures, each digest of `_sd`
      identifies one disclosure, the one at its own position. */
  lemma DigestsIdentifyDisclosures(e: Engine, sd: seq<string>, disclosures: seq<Bytes>, i: nat, j: nat)
    requires DigestsMatch(e, sd, disclosures) && i < |sd| && j < |sd|
    requires forall a, b :: e.digest(a) == e.digest(b) ==> a == b
    requires forall k, m :: 0 <= k < m < |disclosures| ==> disclosures[k] != disclosures[m]
    ensures sd[i] == e.digest(Encode(disclosures[j])) <==> i == j
  {
    if sd[i] == e.digest(Encode(disclosures[j])) {
      EncodeIsInjective(disclosures[i], disclosures[j]);
    }
  }
}
