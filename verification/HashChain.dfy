// packages/audit/chain.py: the hash link and the replay of the chain.
module HashChain {
  import opened Text
  import opened Json
  import opened JsonParser

  // ---- the hash ----

  predicate IsHexDigit(c: char) { '0' <= c <= '9' || 'a' <= c <= 'f' }
  predicate IsDigest(s: string) { |s| == 64 && forall i :: 0 <= i < 64 ==> IsHexDigit(s[i]) }

  // `hexdigest()` of SHA-256.
  type Digest = s: string | IsDigest(s) witness seq(64, _ => '0')

  // SHA-256 itself is a parameter: any function from texts to digests.
  type Hash = string -> Digest

  // The text that compute_hash hashes: the previous hash, if any, and the
  // canonical text.
  function Preimage(data: Dict, prev: Option<string>): string {
    (if prev.Some? then prev.value else "") + Canonical(Obj(data), Compact)
  }

  function ComputeHash(sha: Hash, data: Dict, prev: Option<string>): Digest {
    sha(Preimage(data, prev))
  }

  ghost predicate Collides(sha: Hash, a: string, b: string) {
    a != b && sha(a) == sha(b)
  }

  // Either nothing or a digest may stand in front of the canonical text.
  predicate IsLink(prev: Option<string>) {
    prev.Some? ==> IsDigest(prev.value)
  }

  lemma PreimageHead(d: Dict, p: Option<string>)
    requires IsLink(p)
    ensures Preimage(d, p) != []
    ensures p.Some? <==> IsHexDigit(Preimage(d, p)[0])
  {
    assert Canonical(Obj(d), Compact)[0] == '{';
    if p.Some? { assert IsHexDigit(p.value[0]); }
  }

  // The hashed text splits in one way only: an object starts with '{', which
  // is no hex digit.
  lemma PreimageSplits(d: Dict, p: Option<string>, e: Dict, q: Option<string>)
    requires IsLink(p) && IsLink(q)
    ensures Preimage(d, p) == Preimage(e, q) <==> p == q && SameDict(d, e)
  {
    hide Canonical, Same;
    CanonicalFaithful(Obj(d), Obj(e), Compact);
    PreimageHead(d, p);
    PreimageHead(e, q);
    if Preimage(d, p) == Preimage(e, q) {
      var n := if p.Some? then 64 else 0;
      assert Preimage(d, p)[n..] == Canonical(Obj(d), Compact);
      assert Preimage(e, q)[n..] == Canonical(Obj(e), Compact);
      if p.Some? {
        assert Preimage(d, p)[..n] == p.value && Preimage(e, q)[..n] == q.value;
      }
    }
  }

  // What stands in the hashed text: the previous hash, if any, and then an
  // object that reads back as the data, without a blank that is not its own.
  lemma PreimageReads(data: Dict, prev: Option<string>)
    requires IsLink(prev)
    ensures
      var text, n := Preimage(data, prev), if prev.Some? then 64 else 0;
      && |text| > n && (prev.Some? ==> text[..n] == prev.value)
      && Parse(text[n..]).Some? && Same(Parse(text[n..]).value, Obj(data))
      && (NoBlank(Norm(Obj(data))) ==> ' ' !in text[n..])
  {
    hide Parse, Same, Norm, Emit, NoBlank;
    var text, n := Preimage(data, prev), if prev.Some? then 64 else 0;
    assert text[n..] == Canonical(Obj(data), Compact);
    CanonicalParses(Obj(data), Compact);
    NormIsSame(Obj(data));
    EmitHead(Norm(Obj(data)), Compact);
    if NoBlank(Norm(Obj(data))) { EmitIsClean(Norm(Obj(data)), Compact, false); }
  }

  // A payload that comes back from the JSON column, or over the wire, with its
  // keys in another order hashes as it did when it was written.
  lemma StoredDataHashesTheSame(sha: Hash, d: Dict, e: Dict, prev: Option<string>)
    requires SameDict(d, e)
    ensures ComputeHash(sha, d, prev) == ComputeHash(sha, e, prev)
  {
    CanonicalFaithful(Obj(d), Obj(e), Compact);
  }

  // ---- events ----

  // An event object may lack the attribute, and then takes the previous hash
  // that the replay expects; a stored one may be null.
  datatype Link = Missing | Present(value: Option<string>)

  datatype Event = Event(data: Dict, previousHash: Link, recordHash: string)

  function Claimed(e: Event, prev: Option<string>): Option<string> {
    if e.previousHash.Missing? then prev else e.previousHash.value
  }

  // The record hash in front of position i.
  function PrevOf(events: seq<Event>, i: nat): Option<string>
    requires i <= |events|
  {
    if i == 0 then None else Some(events[i - 1].recordHash)
  }

  predicate EventOk(sha: Hash, events: seq<Event>, i: nat)
    requires i < |events|
  {
    var prev := PrevOf(events, i);
    && Claimed(events[i], prev) == prev
    && events[i].recordHash == ComputeHash(sha, events[i].data, prev)
  }

  ghost predicate ValidUpTo(sha: Hash, events: seq<Event>, n: nat)
    requires n <= |events|
  {
    forall i :: 0 <= i < n ==> EventOk(sha, events, i)
  }

  ghost predicate Valid(sha: Hash, events: seq<Event>) {
    ValidUpTo(sha, events, |events|)
  }

  // The first event that fails.
  ghost predicate BreaksAt(sha: Hash, events: seq<Event>, k: nat) {
    k < |events| && ValidUpTo(sha, events, k) && !EventOk(sha, events, k)
  }

  // The text the verifier hashes at position i.
  function HashedAt(events: seq<Event>, i: nat): string
    requires i < |events|
  {
    Preimage(events[i].data, PrevOf(events, i))
  }

  // Two different texts, each hashed when one of the two lists is replayed,
  // with one digest.  This exhibits a collision; it does not merely say that
  // one exists somewhere.
  ghost predicate CollisionBetween(sha: Hash, xs: seq<Event>, ys: seq<Event>) {
    exists i, j :: 0 <= i < |xs| && 0 <= j < |ys| && Collides(sha, HashedAt(xs, i), HashedAt(ys, j))
  }

  // ---- the replay loop ----

  datatype Report =
    | AllValid
    | BadLink(brokenAt: nat, expectedPrevious: Option<string>, gotPrevious: Option<string>)
    | BadHash(brokenAt: nat, expected: string, got: string)

  // The report names the first failing event, and why it fails.
  ghost predicate Describes(sha: Hash, events: seq<Event>, r: Report) {
    && (r.AllValid? <==> Valid(sha, events))
    && (!r.AllValid? ==>
          && BreaksAt(sha, events, r.brokenAt)
          && var prev, event := PrevOf(events, r.brokenAt), events[r.brokenAt];
             match r
             case BadLink(_, expected, got) => expected == prev && got == Claimed(event, prev) != prev
             case BadHash(_, expected, got) =>
               && Claimed(event, prev) == prev
               && expected == ComputeHash(sha, event.data, prev) && got == event.recordHash != expected)
  }

  method VerifyChain(sha: Hash, events: seq<Event>) returns (r: Report)
    ensures Describes(sha, events, r)
  {
    var prev: Option<string> := None;
    for index := 0 to |events|
      invariant prev == PrevOf(events, index)
      invariant ValidUpTo(sha, events, index)
    {
      var event := events[index];
      var previousHash := Claimed(event, prev);
      if previousHash != prev {
        assert !EventOk(sha, events, index);
        return BadLink(index, prev, previousHash);
      }
      var expected := ComputeHash(sha, event.data, prev);
      if event.recordHash != expected {
        assert !EventOk(sha, events, index);
        return BadHash(index, expected, event.recordHash);
      }
      prev := Some(event.recordHash);
    }
    return AllValid;
  }

  // `broken_at` is determined: no list breaks at two positions, and no valid one
  // breaks at all.
  lemma BreakIsUnique(sha: Hash, events: seq<Event>, j: nat, k: nat)
    requires BreaksAt(sha, events, j) && BreaksAt(sha, events, k)
    ensures j == k && !Valid(sha, events)
  {
  }

  // ---- the last hash commits to the whole history ----

  ghost predicate SameEvent(x: Event, y: Event) {
    SameDict(x.data, y.data) && x.recordHash == y.recordHash
  }

  ghost predicate SameHistory(xs: seq<Event>, ys: seq<Event>) {
    |xs| == |ys| && forall i :: 0 <= i < |xs| ==> SameEvent(xs[i], ys[i])
  }

  lemma PrevIsLink(sha: Hash, events: seq<Event>, i: nat)
    requires i < |events| && ValidUpTo(sha, events, i)
    ensures IsLink(PrevOf(events, i))
  {
    if i > 0 {
      assert EventOk(sha, events, i - 1);
      var digest: Digest := ComputeHash(sha, events[i - 1].data, PrevOf(events, i - 1));
      assert events[i - 1].recordHash == digest;
    }
  }

  lemma {:induction false} LastHashCommits(sha: Hash, xs: seq<Event>, ys: seq<Event>)
    requires xs != [] && ys != []
    requires Valid(sha, xs) && Valid(sha, ys)
    requires xs[|xs| - 1].recordHash == ys[|ys| - 1].recordHash
    ensures SameHistory(xs, ys) || CollisionBetween(sha, xs, ys)
    decreases |xs|
  {
    hide Preimage, Same;
    var m, n := |xs| - 1, |ys| - 1;
    PrevIsLink(sha, xs, m);
    PrevIsLink(sha, ys, n);
    assert EventOk(sha, xs, m) && EventOk(sha, ys, n);
    assert sha(HashedAt(xs, m)) == sha(HashedAt(ys, n));
    if HashedAt(xs, m) != HashedAt(ys, n) {
      assert Collides(sha, HashedAt(xs, m), HashedAt(ys, n));
    } else {
      PreimageSplits(xs[m].data, PrevOf(xs, m), ys[n].data, PrevOf(ys, n));
      assert SameEvent(xs[m], ys[n]);
      if m > 0 {
        PrefixValid(sha, xs, m);
        PrefixValid(sha, ys, n);
        LastHashCommits(sha, xs[..m], ys[..n]);
        if CollisionBetween(sha, xs[..m], ys[..n]) {
          PrefixCollision(sha, xs, m, ys, n);
        } else {
          forall i | 0 <= i < |xs| ensures SameEvent(xs[i], ys[i]) {
            if i < m { assert SameEvent(xs[..m][i], ys[..n][i]); }
          }
        }
      }
    }
  }

  lemma PrefixCollision(sha: Hash, xs: seq<Event>, m: nat, ys: seq<Event>, n: nat)
    requires m <= |xs| && n <= |ys|
    requires CollisionBetween(sha, xs[..m], ys[..n])
    ensures CollisionBetween(sha, xs, ys)
  {
    var i, j :| 0 <= i < m && 0 <= j < n && Collides(sha, HashedAt(xs[..m], i), HashedAt(ys[..n], j));
    assert HashedAt(xs[..m], i) == HashedAt(xs, i) && HashedAt(ys[..n], j) == HashedAt(ys, j);
  }

  // Reading the events back with their data in another key order changes
  // nothing that the replay reports.
  lemma ReadBackVerifiesTheSame(sha: Hash, xs: seq<Event>, ys: seq<Event>, i: nat)
    requires |xs| == |ys| && i < |xs|
    requires forall k :: 0 <= k < |xs| ==>
      SameEvent(xs[k], ys[k]) && xs[k].previousHash == ys[k].previousHash
    ensures EventOk(sha, xs, i) <==> EventOk(sha, ys, i)
  {
    hide Preimage, Same;
    assert SameEvent(xs[i], ys[i]);
    assert PrevOf(xs, i) == PrevOf(ys, i) by {
      if i > 0 { assert SameEvent(xs[i - 1], ys[i - 1]); }
    }
    StoredDataHashesTheSame(sha, xs[i].data, ys[i].data, PrevOf(xs, i));
  }

  // ---- edits are located ----

  // Every prefix of a valid chain is valid: cutting off the tail is the one
  // edit that the replay does not see.
  lemma PrefixValid(sha: Hash, events: seq<Event>, n: nat)
    requires n <= |events| && ValidUpTo(sha, events, n)
    ensures Valid(sha, events[..n])
  {
    forall i | 0 <= i < n ensures EventOk(sha, events[..n], i) {
      assert EventOk(sha, events, i);
    }
  }

  // No record hash occurs twice.
  lemma RecordHashesDistinct(sha: Hash, events: seq<Event>, i: nat, j: nat)
    requires Valid(sha, events) && i < j < |events|
    ensures events[i].recordHash != events[j].recordHash || CollisionBetween(sha, events, events)
  {
    if events[i].recordHash == events[j].recordHash {
      PrefixValid(sha, events, i + 1);
      PrefixValid(sha, events, j + 1);
      LastHashCommits(sha, events[..i + 1], events[..j + 1]);
      PrefixCollision(sha, events, i + 1, events, j + 1);
    }
  }

  // Replacing event i does not disturb what is in front of it.
  lemma ReplaceKeepsPrefix(sha: Hash, events: seq<Event>, i: nat, e: Event)
    requires Valid(sha, events) && i < |events|
    ensures ValidUpTo(sha, events[i := e], i)
    ensures PrevOf(events[i := e], i) == PrevOf(events, i)
  {
    var ys := events[i := e];
    forall k | 0 <= k < i ensures EventOk(sha, ys, k) {
      assert EventOk(sha, events, k);
    }
  }

  // Changing one field of event i is reported at i: the data (unless it means
  // the same, or the old and the new text collide), the record hash, or a
  // present previous_hash.
  lemma EditedFieldIsReported(sha: Hash, events: seq<Event>, i: nat, data: Dict, link: Link, hash: string)
    requires Valid(sha, events) && i < |events|
    ensures
      var ys := events[i := events[i].(data := data)];
      if SameDict(data, events[i].data) then Valid(sha, ys)
      else BreaksAt(sha, ys, i) || Collides(sha, HashedAt(events, i), HashedAt(ys, i))
    ensures hash != events[i].recordHash ==> BreaksAt(sha, events[i := events[i].(recordHash := hash)], i)
    ensures
      var ys := events[i := events[i].(previousHash := link)];
      if link == Missing || link == Present(PrevOf(events, i)) then Valid(sha, ys) else BreaksAt(sha, ys, i)
  {
    var ys := events[i := events[i].(data := data)];
    var zs := events[i := events[i].(previousHash := link)];
    assert EventOk(sha, events, i);
    PrevIsLink(sha, events, i);
    PreimageSplits(data, PrevOf(events, i), events[i].data, PrevOf(events, i));
    ReplaceKeepsPrefix(sha, events, i, ys[i]);
    ReplaceKeepsPrefix(sha, events, i, zs[i]);
    ReplaceKeepsPrefix(sha, events, i, events[i].(recordHash := hash));
    forall k | i < k < |events| ensures EventOk(sha, ys, k) && EventOk(sha, zs, k) {
      assert EventOk(sha, events, k);
    }
  }

  // Rewriting event i together with its hash moves the break to i + 1.
  lemma RewrittenEventIsReported(sha: Hash, events: seq<Event>, i: nat, data: Dict)
    requires Valid(sha, events) && i + 1 < |events|
    requires !SameDict(data, events[i].data)
    ensures
      var hash := ComputeHash(sha, data, PrevOf(events, i));
      var ys := events[i := events[i].(data := data, recordHash := hash)];
      || BreaksAt(sha, ys, i + 1)
      || Collides(sha, HashedAt(events, i), HashedAt(ys, i))
      || Collides(sha, HashedAt(events, i + 1), HashedAt(ys, i + 1))
  {
    var hash := ComputeHash(sha, data, PrevOf(events, i));
    var ys := events[i := events[i].(data := data, recordHash := hash)];
    assert EventOk(sha, events, i) && EventOk(sha, events, i + 1);
    PrevIsLink(sha, events, i);
    ReplaceKeepsPrefix(sha, events, i, ys[i]);
    PreimageSplits(data, PrevOf(events, i), events[i].data, PrevOf(events, i));
    if EventOk(sha, ys, i + 1) {
      PreimageSplits(ys[i + 1].data, PrevOf(ys, i + 1), events[i + 1].data, PrevOf(events, i + 1));
    }
  }

  function Deleted(events: seq<Event>, i: nat): seq<Event>
    requires i < |events|
  {
    events[..i] + events[i + 1..]
  }

  // Deleting an event other than the last is reported at its position.
  lemma DeletedEventIsReported(sha: Hash, events: seq<Event>, i: nat)
    requires Valid(sha, events) && i + 1 < |events|
    ensures
      var ys := Deleted(events, i);
      || BreaksAt(sha, ys, i)
      || CollisionBetween(sha, events, events)
      || Collides(sha, HashedAt(events, i + 1), HashedAt(ys, i))
  {
    var ys := Deleted(events, i);
    forall k | 0 <= k < i ensures EventOk(sha, ys, k) {
      assert EventOk(sha, events, k);
    }
    assert EventOk(sha, events, i) && EventOk(sha, events, i + 1);
    PrevIsLink(sha, events, i);
    PrevIsLink(sha, events, i + 1);
    assert PrevOf(ys, i) == PrevOf(events, i) && ys[i] == events[i + 1];
    if EventOk(sha, ys, i) && HashedAt(ys, i) == HashedAt(events, i + 1) {
      PreimageSplits(ys[i].data, PrevOf(ys, i), events[i + 1].data, PrevOf(events, i + 1));
      assert i > 0;
      RecordHashesDistinct(sha, events, i - 1, i);
    }
  }

  // An edit of any kind that keeps the last hash is reported somewhere.
  lemma AnyEditIsReported(sha: Hash, events: seq<Event>, ys: seq<Event>)
    requires Valid(sha, events) && events != [] && ys != []
    requires ys[|ys| - 1].recordHash == events[|events| - 1].recordHash
    requires !SameHistory(events, ys)
    ensures (exists k :: BreaksAt(sha, ys, k)) || CollisionBetween(sha, events, ys)
  {
    if Valid(sha, ys) {
      LastHashCommits(sha, events, ys);
    } else {
      var k := FirstBreak(sha, ys, 0);
    }
  }

  lemma {:induction false} FirstBreak(sha: Hash, events: seq<Event>, n: nat) returns (k: nat)
    requires n <= |events| && ValidUpTo(sha, events, n) && !Valid(sha, events)
    ensures BreaksAt(sha, events, k)
    decreases |events| - n
  {
    if !EventOk(sha, events, n) { return n; }
    k := FirstBreak(sha, events, n + 1);
  }
}
