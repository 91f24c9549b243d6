/**
 * The audit hash chain: recordAudit.ts and the verify loop of admin.ts. The
 * hash is a parameter; where it matters it is assumed injective on canonical
 * forms.
 */
module Audit {
  import opened Prelude

  type Hash = string

  /** A JSON payload as stored: absent, the JSON null, or another value. */
  datatype Payload = Undefined | Null | Json(text: string)

  datatype Entry = Entry(
    id: string,
    seq_: int,
    occurredAt: int,
    actorUserId: Option<string>,
    actorUsername: Option<string>,
    actorRole: string,
    sessionId: Option<string>,
    action: string,
    category: string,
    targetType: Option<string>,
    targetId: Option<string>,
    status: string,
    errorCode: Option<string>,
    summary: string,
    payload: Payload,
    requestId: Option<string>,
    ip: Option<string>,
    userAgent: Option<string>,
    prevHash: Option<Hash>,
    hash: Hash)

  /** The hashable view: everything but the hash, an absent payload as null. */
  function Canonicalize(e: Entry): Entry {
    e.(hash := "", payload := if e.payload == Undefined then Null else e.payload)
  }

  function HashEntry(h: Entry -> Hash, e: Entry): Hash {
    h(Canonicalize(e))
  }

  ghost predicate Injective(h: Entry -> Hash) {
    forall a, b :: h(a) == h(b) ==> a == b
  }

  function LastHash(log: seq<Entry>): Option<Hash> {
    if |log| == 0 then None else Some(log[|log| - 1].hash)
  }

  /** Entry k continues the chain of the entries before it. */
  predicate Links(h: Entry -> Hash, log: seq<Entry>, k: nat)
    requires k < |log|
  {
    log[k].prevHash == LastHash(log[..k]) && log[k].hash == HashEntry(h, log[k])
  }

  predicate Verifies(h: Entry -> Hash, log: seq<Entry>) {
    forall k :: 0 <= k < |log| ==> Links(h, log, k)
  }

  predicate Numbered(log: seq<Entry>) {
    forall k :: 0 <= k < |log| ==> log[k].seq_ == k + 1
  }

  /** The log after one more draft: next number, previous hash, own hash. */
  function Appended(h: Entry -> Hash, log: seq<Entry>, draft: Entry): seq<Entry> {
    var number := if |log| == 0 then 1 else log[|log| - 1].seq_ + 1;
    var numbered := draft.(seq_ := number, prevHash := LastHash(log), hash := "");
    log + [numbered.(hash := HashEntry(h, numbered))]
  }

  function LogOf(h: Entry -> Hash, drafts: seq<Entry>): seq<Entry> {
    if |drafts| == 0 then [] else Appended(h, LogOf(h, drafts[..|drafts| - 1]), drafts[|drafts| - 1])
  }

  /** Entry k is the draft with its place in the chain filled in. */
  predicate Records(log: seq<Entry>, drafts: seq<Entry>, k: nat)
    requires k < |log| && k < |drafts|
  {
    log[k] == drafts[k].(seq_ := k + 1, prevHash := log[k].prevHash, hash := log[k].hash)
  }

  lemma AppendedLinks(h: Entry -> Hash, log: seq<Entry>, draft: Entry)
    ensures Links(h, Appended(h, log, draft), |log|)
    ensures Verifies(h, log) ==> Verifies(h, Appended(h, log, draft))
    ensures Numbered(log) ==> Numbered(Appended(h, log, draft))
  {
    var next := Appended(h, log, draft);
    forall k | 0 <= k < |next| && Verifies(h, log) ensures Links(h, next, k) {
      assert next[..k] == log[..k];
      assert k < |log| ==> Links(h, log, k);
    }
    assert next[..|log|] == log;
  }

  lemma AppendedRecords(h: Entry -> Hash, log: seq<Entry>, drafts: seq<Entry>, draft: Entry)
    requires |log| == |drafts| && Numbered(log)
    requires forall k :: 0 <= k < |log| ==> Records(log, drafts, k)
    ensures var next := Appended(h, log, draft);
            |next| == |log| + 1 && forall k :: 0 <= k < |next| ==> Records(next, drafts + [draft], k)
  {
    hide HashEntry, LastHash;
    var next := Appended(h, log, draft);
    forall k | 0 <= k < |next| ensures Records(next, drafts + [draft], k) {
      if k < |log| {
        assert Records(log, drafts, k);
      }
    }
  }

  /** Whatever is recorded, in whatever order, the log verifies, is numbered from
    * 1 and holds the drafts one by one with nothing else in them changed. */
  lemma {:induction false} RecordedLog(h: Entry -> Hash, drafts: seq<Entry>)
    ensures var log := LogOf(h, drafts);
            && |log| == |drafts| && Verifies(h, log) && Numbered(log)
            && forall k :: 0 <= k < |drafts| ==> Records(log, drafts, k)
  {
    if |drafts| > 0 {
      hide Appended, Records, Verifies, Numbered;
      var earlier, draft := drafts[..|drafts| - 1], drafts[|drafts| - 1];
      RecordedLog(h, earlier);
      AppendedLinks(h, LogOf(h, earlier), draft);
      AppendedRecords(h, LogOf(h, earlier), earlier, draft);
      assert drafts == earlier + [draft];
    }
  }

  datatype Reason = PrevHashMismatch | HashMismatch
  datatype Verdict = Intact(count: nat) | Broken(at: nat, reason: Reason)

  class AuditLog {
    const hash: Entry -> Hash
    /** The table in order of its sequence numbers. */
    var entries: seq<Entry>

    /** What a log has that only Record has written. */
    ghost predicate Valid()
      reads this
    {
      Verifies(hash, entries) && Numbered(entries)
    }

    constructor (hash: Entry -> Hash)
      ensures this.hash == hash && entries == [] && Valid()
    {
      this.hash := hash;
      entries := [];
    }

    /** Appends a draft: next number, previous hash, own hash. */
    method Record(draft: Entry) returns (entry: Entry)
      modifies this
      ensures entries == old(entries) + [entry]
      ensures entry == draft.(seq_ := entry.seq_, prevHash := LastHash(old(entries)), hash := entry.hash)
      ensures old(entries) == [] ==> entry.seq_ == 1
      ensures old(entries) != [] ==> entry.seq_ == old(entries)[|old(entries)| - 1].seq_ + 1
      ensures entries == Appended(hash, old(entries), draft) && Links(hash, entries, |old(entries)|)
      ensures old(Verifies(hash, entries)) ==> Verifies(hash, entries)
      ensures old(Numbered(entries)) ==> Numbered(entries)
      ensures old(Valid()) ==> Valid()
    {
      var prev := |entries| - 1;
      var numbered := draft.(
        seq_ := (if prev >= 0 then entries[prev].seq_ else 0) + 1,
        prevHash := if prev >= 0 then Some(entries[prev].hash) else None,
        hash := "");
      entry := numbered.(hash := HashEntry(hash, numbered));
      AppendedLinks(hash, entries, draft);
      entries := entries + [entry];
    }

    /** The verify loop: it reports the first entry that does not continue the chain. */
    method Verify() returns (v: Verdict)
      ensures v.Intact? <==> Verifies(hash, entries)
      ensures v.Intact? ==> v.count == |entries|
      ensures v.Broken? ==>
                && v.at < |entries|
                && !Links(hash, entries, v.at)
                && (forall k :: 0 <= k < v.at ==> Links(hash, entries, k))
                && (v.reason == PrevHashMismatch <==> entries[v.at].prevHash != LastHash(entries[..v.at]))
    {
      var prevHash: Option<Hash> := None;
      var i := 0;
      while i < |entries|
        invariant 0 <= i <= |entries|
        invariant prevHash == LastHash(entries[..i])
        invariant forall k :: 0 <= k < i ==> Links(hash, entries, k)
      {
        var entry := entries[i];
        if entry.prevHash != prevHash {
          assert !Links(hash, entries, i);
          return Broken(i, PrevHashMismatch);
        }
        var expected := HashEntry(hash, entry.(hash := ""));
        if expected != entry.hash {
          assert !Links(hash, entries, i);
          return Broken(i, HashMismatch);
        }
        prevHash := Some(entry.hash);
        i := i + 1;
      }
      return Intact(|entries|);
    }
  }

  /** The same in every field, except that an absent payload counts as null. */
  predicate SameEntry(a: Entry, b: Entry) {
    && b == a.(payload := b.payload)
    && (a.payload == b.payload || (a.payload in {Undefined, Null} && b.payload in {Undefined, Null}))
  }

  /** Two logs agree entry by entry. */
  predicate SameLog(a: seq<Entry>, b: seq<Entry>) {
    |a| == |b| && forall k :: 0 <= k < |a| ==> SameEntry(a[k], b[k])
  }

  /** The canonical form loses nothing but the hash and that distinction. */
  lemma CanonicalExactly(a: Entry, b: Entry)
    ensures Canonicalize(a) == Canonicalize(b) && a.hash == b.hash <==> SameEntry(a, b)
  {
  }

  lemma VerifiesPrefix(h: Entry -> Hash, log: seq<Entry>, n: nat)
    requires n <= |log| && Verifies(h, log)
    ensures Verifies(h, log[..n])
  {
    forall k | 0 <= k < n ensures Links(h, log[..n], k) {
      assert Links(h, log, k) && log[..n][..k] == log[..k];
    }
  }

  /** The last hash determines the whole log: two logs that both verify and end
    * in the same hash are the same log. */
  lemma {:induction false} HeadDeterminesLog(h: Entry -> Hash, a: seq<Entry>, b: seq<Entry>)
    requires Injective(h) && Verifies(h, a) && Verifies(h, b) && LastHash(a) == LastHash(b)
    ensures SameLog(a, b)
    decreases |a|
  {
    if |a| > 0 {
      var m, n := |a| - 1, |b| - 1;
      assert Links(h, a, m) && Links(h, b, n);
      assert Canonicalize(a[m]) == Canonicalize(b[n]);
      CanonicalExactly(a[m], b[n]);
      assert a[m].prevHash == b[n].prevHash;
      VerifiesPrefix(h, a, m);
      VerifiesPrefix(h, b, n);
      HeadDeterminesLog(h, a[..m], b[..n]);
    }
  }

  /** So any change to a recorded log that keeps its last hash is reported:
    * an edited field, an inserted, removed or reordered entry. */
  lemma TamperingReported(h: Entry -> Hash, recorded: seq<Entry>, tampered: seq<Entry>)
    requires Injective(h) && Verifies(h, recorded) && LastHash(tampered) == LastHash(recorded)
    ensures Verifies(h, tampered) <==> SameLog(recorded, tampered)
  {
    if Verifies(h, tampered) {
      HeadDeterminesLog(h, recorded, tampered);
    }
    if SameLog(recorded, tampered) {
      forall k | 0 <= k < |tampered| ensures Links(h, tampered, k) {
        assert Links(h, recorded, k);
        CanonicalExactly(recorded[k], tampered[k]);
        assert k > 0 ==> recorded[k - 1].hash == tampered[k - 1].hash;
      }
    }
  }

  /** The one difference the canonical form cannot see. */
  lemma AbsentPayloadReadsAsNull(h: Entry -> Hash, e: Entry)
    requires e.payload == Undefined && e.prevHash == None && e.hash == HashEntry(h, e)
    ensures e != e.(payload := Null)
    ensures Verifies(h, [e]) && Verifies(h, [e.(payload := Null)])
  {
    assert Canonicalize(e) == Canonicalize(e.(payload := Null));
  }
}
