/** The receipt chain of private_shield/audit.py. */
module AuditChain {
  import opened Common
  import opened HashChain
  import opened JsonValues
  import Policy

  // What is handed over to be recorded.
  datatype Evidence = Evidence(
    request: Policy.Request, decision: Policy.PolicyDecision, input: Bytes, output: Bytes, timestamp: int)

  // Everything a receipt records besides its links, as it is written in JSON.
  datatype Receipt = Receipt(
    receiptId: string, timestamp: string, subject: string, action: string, resource: string, decision: string,
    reasons: seq<string>, capabilityIds: seq<string>, risk: string, inputHash: string, outputHash: string)

  // `hash` stands for SHA-256 over a material, `iso` and `number` for the written forms of a time and of a risk.
  datatype Forms = Forms(hash: Bytes -> string, iso: int -> string, number: real -> string)

  function DecisionText(d: Policy.Decision): string {
    match d
    case Allow => "ALLOW"
    case Deny => "DENY"
    case RequireApproval => "REQUIRE_APPROVAL"
  }

  function Recorded(f: Forms, receiptId: string, e: Evidence): Receipt {
    Receipt(
      receiptId, f.iso(e.timestamp), e.request.subject, e.request.action, e.request.resource,
      DecisionText(e.decision.decision), e.decision.reasons, e.decision.capabilityIds, f.number(e.decision.risk),
      f.hash(e.input), f.hash(e.output))
  }

  // What a receipt says of its evidence.
  lemma RecordedSays(f: Forms, receiptId: string, e: Evidence)
    ensures
      var r := Recorded(f, receiptId, e);
      && r.receiptId == receiptId && r.timestamp == f.iso(e.timestamp)
      && r.subject == e.request.subject && r.action == e.request.action && r.resource == e.request.resource
      && (e.decision.decision == Policy.Allow ==> r.decision == "ALLOW")
      && (e.decision.decision == Policy.Deny ==> r.decision == "DENY")
      && (e.decision.decision == Policy.RequireApproval ==> r.decision == "REQUIRE_APPROVAL")
      && r.reasons == e.decision.reasons && r.capabilityIds == e.decision.capabilityIds
      && r.risk == f.number(e.decision.risk)
      && r.inputHash == f.hash(e.input) && r.outputHash == f.hash(e.output)
  {
  }

  type Chain = seq<Entry<Receipt>>

  // The 64 zeros no receipt has come before.
  const GENESIS_HASH := "0000000000000000000000000000000000000000000000000000000000000000"

  class AuditChain {
    const crypto: Crypto<Receipt>
    const forms: Forms
    var receipts: Chain

    ghost predicate Valid()
      reads this
    {
      Linked(crypto, GENESIS_HASH, receipts)
    }

    constructor (crypto: Crypto<Receipt>, forms: Forms)
      ensures Valid() && receipts == [] && this.crypto == crypto && this.forms == forms
    {
      this.crypto, this.forms := crypto, forms;
      receipts := [];
    }

    // The identifier is drawn at random.
    method Append(receiptId: string, evidence: Evidence) returns (receipt: Entry<Receipt>)
      requires Valid()
      modifies this
      ensures Valid()
      ensures receipts == old(receipts) + [receipt]
      ensures receipt == Sealed(crypto, Recorded(forms, receiptId, evidence), Text(Head(GENESIS_HASH, old(receipts))))
    {
      var previousHash := if receipts != [] then receipts[|receipts| - 1].hash else GENESIS_HASH;
      var body := Recorded(forms, receiptId, evidence);
      var receiptHash := crypto.digest(body, Text(previousHash));
      receipt := Entry(body, Text(previousHash), receiptHash, crypto.sign(receiptHash));
      AppendKeepsLinked(crypto, GENESIS_HASH, receipts, body);
      receipts := receipts + [receipt];
    }

    method VerifyReceipts(supplied: Chain) returns (ok: bool)
      ensures ok <==> Linked(crypto, GENESIS_HASH, supplied)
    {
      ok := Verify(crypto, GENESIS_HASH, supplied);
    }
  }

  // The chain that appending these bodies builds.
  function Built(c: Crypto<Receipt>, bodies: seq<Receipt>): Chain {
    if bodies == [] then []
    else
      var before := Built(c, bodies[..|bodies| - 1]);
      before + [Sealed(c, bodies[|bodies| - 1], Text(Head(GENESIS_HASH, before)))]
  }

  const MIN_KEY_LENGTH := 16

  // The public constructor: a signing key of fewer than 16 bytes is refused.
  method NewAuditChain(crypto: Crypto<Receipt>, forms: Forms, keyLength: nat) returns (chain: Option<AuditChain>)
    ensures chain.None? <==> keyLength < MIN_KEY_LENGTH
    ensures chain.Some? ==>
              fresh(chain.value) && chain.value.Valid() && chain.value.receipts == [] &&
              chain.value.crypto == crypto && chain.value.forms == forms
  {
    if keyLength < MIN_KEY_LENGTH {
      return None;
    }
    var c := new AuditChain(crypto, forms);
    return Some(c);
  }

  // Every chain built by appending verifies, and so does every prefix of it.
  lemma {:induction false} BuiltChainsVerify(c: Crypto<Receipt>, bodies: seq<Receipt>, k: nat)
    requires k <= |bodies|
    ensures |Built(c, bodies)| == |bodies| && Built(c, bodies)[..k] == Built(c, bodies[..k])
    ensures Linked(c, GENESIS_HASH, Built(c, bodies)[..k])
    decreases |bodies|
  {
    if bodies != [] {
      var front := bodies[..|bodies| - 1];
      BuiltChainsVerify(c, front, if k < |bodies| then k else |front|);
      assert Built(c, front)[..|front|] == Built(c, front);
      if k < |bodies| {
        assert front[..k] == bodies[..k];
        assert Built(c, bodies)[..k] == Built(c, front)[..k];
      } else {
        BuiltChainsVerify(c, front, |front|);
        AppendKeepsLinked(c, GENESIS_HASH, Built(c, front), bodies[|bodies| - 1]);
        assert bodies[..k] == bodies && Built(c, bodies)[..k] == Built(c, bodies);
      }
    }
  }

  // ----- What the last hash identifies -----

  // No receipt has the hash that no receipt has come before.
  ghost predicate NoneIsGenesis(s: Chain) {
    forall i :: 0 <= i < |s| ==> s[i].hash != GENESIS_HASH
  }

  // Two verified chains that end in one hash are the same, unless they collide or come back to the genesis hash.
  lemma {:induction false} LastHashIdentifies(c: Crypto<Receipt>, s: Chain, t: Chain)
    requires NoCollision(s, t) && NoneIsGenesis(s) && NoneIsGenesis(t)
    requires Linked(c, GENESIS_HASH, s) && Linked(c, GENESIS_HASH, t) && Head(GENESIS_HASH, s) == Head(GENESIS_HASH, t)
    ensures s == t
    decreases |s|
  {
    if s != [] && t != [] {
      var front, front', last := s[..|s| - 1], t[..|t| - 1], s[|s| - 1];
      LastEntriesAgree(c, GENESIS_HASH, s, GENESIS_HASH, t);
      LinkedSplits(c, GENESIS_HASH, s, |front|);
      LinkedSplits(c, GENESIS_HASH, t, |front'|);
      LastHashIdentifies(c, front, front');
      assert s == front + [last] && t == front' + [last];
    }
  }

  ghost predicate Verified(c: Crypto<Receipt>, s: Chain) {
    Linked(c, GENESIS_HASH, s)
  }

  // The last hash of a verified chain tells it from all others.
  ghost predicate LastHashTells(c: Crypto<Receipt>) {
    forall s: Chain, t: Chain :: Verified(c, s) && Verified(c, t) && Head(GENESIS_HASH, s) == Head(GENESIS_HASH, t) ==>
      s == t
  }

  // No verified chain comes back to the genesis hash, and no two of them collide.
  ghost predicate HashesAreFresh(c: Crypto<Receipt>) {
    && (forall s: Chain :: Verified(c, s) ==> NoneIsGenesis(s))
    && (forall s: Chain, t: Chain :: Verified(c, s) && Verified(c, t) ==> NoCollision(s, t))
  }

  // Both directions, of every digest: the last hash tells verified chains apart exactly when their hashes are fresh.
  lemma LastHashTellsIff(c: Crypto<Receipt>)
    ensures LastHashTells(c) <==> HashesAreFresh(c)
  {
    if HashesAreFresh(c) {
      forall s: Chain, t: Chain | Verified(c, s) && Verified(c, t) && Head(GENESIS_HASH, s) == Head(GENESIS_HASH, t)
        ensures s == t
      {
        LastHashIdentifies(c, s, t);
      }
    }
    if LastHashTells(c) {
      forall s: Chain | Verified(c, s) ensures NoneIsGenesis(s) {
        NoGenesisIfTold(c, s);
      }
      forall s: Chain, t: Chain | Verified(c, s) && Verified(c, t) ensures NoCollision(s, t) {
        NoCollisionIfTold(c, s, t);
      }
    }
  }

  lemma NoGenesisIfTold(c: Crypto<Receipt>, s: Chain)
    requires LastHashTells(c) && Verified(c, s)
    ensures NoneIsGenesis(s)
  {
    var none: Chain := [];
    assert Verified(c, none) && Head(GENESIS_HASH, none) == GENESIS_HASH;
    forall i | 0 <= i < |s| ensures s[i].hash != GENESIS_HASH {
      LinkedSplits(c, GENESIS_HASH, s, i + 1);
      assert Verified(c, s[..i + 1]) && Head(GENESIS_HASH, s[..i + 1]) == s[i].hash;
      assert s[..i + 1] != none;
    }
  }

  lemma NoCollisionIfTold(c: Crypto<Receipt>, s: Chain, t: Chain)
    requires LastHashTells(c) && Verified(c, s) && Verified(c, t)
    ensures NoCollision(s, t)
  {
    forall i, j | 0 <= i < |s| && 0 <= j < |t| && s[i].hash == t[j].hash
      ensures s[i].body == t[j].body && s[i].previous == t[j].previous
    {
      var u, v := s[..i + 1], t[..j + 1];
      LinkedSplits(c, GENESIS_HASH, s, i + 1);
      LinkedSplits(c, GENESIS_HASH, t, j + 1);
      assert Verified(c, u) && Verified(c, v) && Head(GENESIS_HASH, u) == Head(GENESIS_HASH, v);
      assert u[|u| - 1] == s[i] && v[|v| - 1] == t[j];
    }
  }
}
