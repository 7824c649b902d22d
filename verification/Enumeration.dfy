/**
 Credential management as an authenticator with the cursor semantics of sections 6.8.2 to 6.8.4 of CTAP
 2.1 answers it. Entities, tokens and authentication values are opaque strings here.
 */
module CredentialDevice {
  import opened Values

  datatype Party = Party(entity: string, hash: string)

  datatype Stored = Stored(user: string, id: string, protect: nat, largeBlobKey: string)

  datatype Group = Group(party: Party, credentials: seq<Stored>)

  datatype Command =
    | GetToken(code: nat)
    | Metadata(code: nat, protocol: nat, token: string)
    | RPsBegin(code: nat, protocol: nat, token: string)
    | RPsNext(code: nat)
    | CredentialsBegin(code: nat, protocol: nat, token: string, hash: string)
    | CredentialsNext(code: nat)

  /** Fields the authenticator may leave out are absent or zero. */
  datatype Response = Response(
    token: string,
    existing: nat, remaining: nat,
    party: Option<Party>, totalRPs: nat,
    credential: Option<Stored>, totalCredentials: nat)

  datatype Error = Status(code: nat) | Incomplete | Failed | Unsupported

  type Reply = Result<Response, Error>

  datatype Entry = Entry(cmd: Command, reply: Reply)

  const BLANK := Response("", 0, 0, None, 0, None, 0)
  const NO_CREDENTIALS := 0x2e
  const NOT_ALLOWED := 0x30

  /** What the authenticator holds, and whether it leaves out a total of one. */
  datatype Device = Device(store: seq<Group>, remaining: nat, terse: bool)

  datatype Cursor = Idle | AtParty(next: nat) | AtCredential(party: nat, next: nat)

  ghost predicate ValidStore(store: seq<Group>) {
    && (forall i :: 0 <= i < |store| ==> store[i].credentials != [])
    && (forall i, j :: 0 <= i < j < |store| ==> store[i].party.hash != store[j].party.hash)
  }

  function Count(store: seq<Group>): nat {
    if store == [] then 0 else Count(store[..|store| - 1]) + |store[|store| - 1].credentials|
  }

  function Told(dev: Device, total: nat): nat {
    if dev.terse && total == 1 then 0 else total
  }

  function FindParty(store: seq<Group>, hash: string): (r: Option<nat>)
    ensures r.Some? ==> r.value < |store| && store[r.value].party.hash == hash
    ensures r.None? ==> forall i :: 0 <= i < |store| ==> store[i].party.hash != hash
  {
    if store == [] then None
    else if store[|store| - 1].party.hash == hash then Some(|store| - 1)
    else FindParty(store[..|store| - 1], hash)
  }

  /** The authenticator's answer to a command it accepts, and where its cursor then stands. */
  function Serve(dev: Device, cursor: Cursor, cmd: Command): (Cursor, Reply) {
    match cmd
    case GetToken(_) => (Idle, Ok(BLANK))
    case Metadata(_, _, _) => (Idle, Ok(BLANK.(existing := Count(dev.store), remaining := dev.remaining)))
    case RPsBegin(_, _, _) =>
      if dev.store == [] then (Idle, Err(Status(NO_CREDENTIALS)))
      else (AtParty(1), Ok(BLANK.(party := Some(dev.store[0].party), totalRPs := Told(dev, |dev.store|))))
    case RPsNext(_) =>
      if cursor.AtParty? && cursor.next < |dev.store| then
        (AtParty(cursor.next + 1), Ok(BLANK.(party := Some(dev.store[cursor.next].party))))
      else (Idle, Err(Status(NOT_ALLOWED)))
    case CredentialsBegin(_, _, _, hash) =>
      var found := FindParty(dev.store, hash);
      if found.None? || dev.store[found.value].credentials == [] then (Idle, Err(Status(NO_CREDENTIALS)))
      else
        var group := dev.store[found.value];
        (AtCredential(found.value, 1),
         Ok(BLANK.(credential := Some(group.credentials[0]), totalCredentials := Told(dev, |group.credentials|))))
    case CredentialsNext(_) =>
      if cursor.AtCredential? && cursor.party < |dev.store| && cursor.next < |dev.store[cursor.party].credentials| then
        (AtCredential(cursor.party, cursor.next + 1),
         Ok(BLANK.(credential := Some(dev.store[cursor.party].credentials[cursor.next]))))
      else (Idle, Err(Status(NOT_ALLOWED)))
  }

  /**
   Every answer that arrived is the device's own to that command at that point. A call may fail for any
   reason, before or after the device acted on it, and then leaves the cursor anywhere. Tokens are free.
   */
  ghost predicate ConformsVia(dev: Device, log: seq<Entry>, cursors: seq<Cursor>) {
    && |cursors| == |log| + 1
    && forall k :: 0 <= k < |log| && log[k].reply.Ok? && !log[k].cmd.GetToken? ==>
                     Serve(dev, cursors[k], log[k].cmd) == (cursors[k + 1], log[k].reply)
  }

  ghost predicate Conforms(dev: Device, log: seq<Entry>) {
    exists cursors :: ConformsVia(dev, log, cursors)
  }

  /** Part of a conforming history conforms, from wherever the cursor stood. */
  lemma ConformsPart(dev: Device, before: seq<Entry>, part: seq<Entry>, after: seq<Entry>)
    requires Conforms(dev, before + part + after)
    ensures Conforms(dev, part)
  {
    var log := before + part + after;
    var cursors :| ConformsVia(dev, log, cursors);
    var mine := cursors[|before|..|before| + |part| + 1];
    forall k | 0 <= k < |part| && part[k].reply.Ok? && !part[k].cmd.GetToken?
      ensures Serve(dev, mine[k], part[k].cmd) == (mine[k + 1], part[k].reply)
    {
      assert log[|before| + k] == part[k];
      assert mine[k] == cursors[|before| + k] && mine[k + 1] == cursors[|before| + k + 1];
    }
    assert ConformsVia(dev, part, mine);
  }
}

/** One walk of an enumeration: a Begin and its GetNexts, on any device at all. */
module Walks {
  import opened Values
  import opened CredentialDevice

  predicate Begins(cmd: Command) {
    cmd.RPsBegin? || cmd.CredentialsBegin?
  }

  predicate IsNext(cmd: Command) {
    cmd.RPsNext? || cmd.CredentialsNext?
  }

  /** The GetNext that continues a Begin. */
  function NextOf(begin: Command): Command
    requires Begins(begin)
  {
    if begin.RPsBegin? then RPsNext(begin.code) else CredentialsNext(begin.code)
  }

  /** How many items the answer to a Begin announces; no total means one. */
  function Announced(begin: Command, r: Response): nat {
    var total := if begin.RPsBegin? then r.totalRPs else r.totalCredentials;
    if total == 0 then 1 else total
  }

  /** Begin, then only its own GetNexts, stopping at the first failure and never asking past the announced total. */
  ghost predicate Walk(seg: seq<Entry>, begin: Command)
    requires Begins(begin)
  {
    && seg != [] && seg[0].cmd == begin
    && (forall k :: 1 <= k < |seg| ==> seg[k].cmd == NextOf(begin))
    && (forall k :: 0 <= k < |seg| - 1 ==> seg[k].reply.Ok?)
    && (|seg| > 1 ==> |seg| <= Announced(begin, seg[0].reply.value))
  }

  /** The GetNext at position k belongs to an enumeration begun at some j, answered at every step since, and not exhausted. */
  ghost predicate Inside(log: seq<Entry>, k: nat)
    requires k < |log|
  {
    exists j :: 0 <= j < k && InsideFrom(log, j, k)
  }

  ghost predicate InsideFrom(log: seq<Entry>, j: nat, k: nat)
    requires j < k < |log|
  {
    && Begins(log[j].cmd) && log[j].reply.Ok?
    && (forall i :: j < i <= k ==> log[i].cmd == NextOf(log[j].cmd))
    && (forall i :: j <= i < k ==> log[i].reply.Ok?)
    && k - j < Announced(log[j].cmd, log[j].reply.value)
  }

  ghost predicate NextsInside(log: seq<Entry>) {
    forall k :: 0 <= k < |log| && IsNext(log[k].cmd) ==> Inside(log, k)
  }

  lemma InsideStays(log: seq<Entry>, more: seq<Entry>, k: nat)
    requires k < |log| && Inside(log, k)
    ensures Inside(log + more, k)
  {
    var j :| 0 <= j < k && InsideFrom(log, j, k);
    assert forall i :: 0 <= i < |log| ==> (log + more)[i] == log[i];
    assert InsideFrom(log + more, j, k);
  }

  lemma WalkStaysInside(log: seq<Entry>, seg: seq<Entry>, begin: Command)
    requires NextsInside(log) && Begins(begin) && Walk(seg, begin)
    ensures NextsInside(log + seg)
  {
    var all := log + seg;
    forall k | 0 <= k < |all| && IsNext(all[k].cmd) ensures Inside(all, k) {
      if k < |log| {
        assert all[k] == log[k];
        InsideStays(log, seg, k);
      } else {
        assert forall i :: |log| <= i < |all| ==> all[i] == seg[i - |log|];
        assert InsideFrom(all, |log|, k);
      }
    }
  }

  lemma OtherStaysInside(log: seq<Entry>, e: Entry)
    requires NextsInside(log) && !IsNext(e.cmd)
    ensures NextsInside(log + [e])
  {
    var all := log + [e];
    forall k | 0 <= k < |all| && IsNext(all[k].cmd) ensures Inside(all, k) {
      assert k < |log| && all[k] == log[k];
      InsideStays(log, [e], k);
    }
  }

  // ----- Complete walks, and what they say of a conforming device ------------------------------

  datatype Discoverable = Discoverable(party: Party, credential: Stored)

  /** Every relying party was answered for, or the first answer named none. */
  ghost predicate PartiesRead(seg: seq<Entry>, parties: seq<Party>) {
    && seg != [] && (forall k :: 0 <= k < |seg| ==> seg[k].reply.Ok?)
    && if seg[0].reply.value.party.None? then |seg| == 1 && parties == []
       else && |seg| == |parties| == Announced(seg[0].cmd, seg[0].reply.value)
            && forall k :: 0 <= k < |seg| ==> seg[k].reply.value.party == Some(parties[k])
  }

  ghost predicate CredentialsRead(seg: seq<Entry>, party: Party, found: seq<Discoverable>) {
    && seg != [] && (forall k :: 0 <= k < |seg| ==> seg[k].reply.Ok?)
    && |seg| == |found| == Announced(seg[0].cmd, seg[0].reply.value)
    && forall k :: 0 <= k < |seg| ==> seg[k].reply.value.credential.Some? && found[k] == Discoverable(party, seg[k].reply.value.credential.value)
  }

  /** The credentials of a group, as a listing shows them. */
  function Shown(group: Group): seq<Discoverable> {
    seq(|group.credentials|, k requires 0 <= k < |group.credentials| => Discoverable(group.party, group.credentials[k]))
  }

  lemma {:induction false} PartyCursor(dev: Device, seg: seq<Entry>, cursors: seq<Cursor>, begin: Command, k: nat)
    requires begin.RPsBegin? && Walk(seg, begin) && ConformsVia(dev, seg, cursors)
    requires k < |seg| && forall i :: 0 <= i < |seg| ==> seg[i].reply.Ok?
    ensures k < |dev.store| && cursors[k + 1] == AtParty(k + 1) && seg[k].reply.value.party == Some(dev.store[k].party)
    ensures k == 0 ==> seg[0].reply.value.totalRPs == Told(dev, |dev.store|)
  {
    assert Serve(dev, cursors[k], seg[k].cmd) == (cursors[k + 1], seg[k].reply);
    if k > 0 {
      PartyCursor(dev, seg, cursors, begin, k - 1);
    }
  }

  /** On a conforming device a complete walk over relying parties lists exactly the store's, in its order. */
  lemma PartiesAreTheStores(dev: Device, seg: seq<Entry>, begin: Command, parties: seq<Party>)
    requires begin.RPsBegin? && Walk(seg, begin) && Conforms(dev, seg) && PartiesRead(seg, parties)
    ensures |parties| == |dev.store| && forall i :: 0 <= i < |parties| ==> parties[i] == dev.store[i].party
  {
    var cursors :| ConformsVia(dev, seg, cursors);
    PartyCursor(dev, seg, cursors, begin, 0);
    forall i | 0 <= i < |parties| ensures i < |dev.store| && parties[i] == dev.store[i].party {
      PartyCursor(dev, seg, cursors, begin, i);
    }
  }

  lemma FindUnique(store: seq<Group>, i: nat)
    requires ValidStore(store) && i < |store|
    ensures FindParty(store, store[i].party.hash) == Some(i)
  {
    var found := FindParty(store, store[i].party.hash);
    assert found.Some? && store[found.value].party.hash == store[i].party.hash;
  }

  lemma {:induction false} CredentialCursor(dev: Device, seg: seq<Entry>, cursors: seq<Cursor>, begin: Command, p: nat, k: nat)
    requires ValidStore(dev.store) && p < |dev.store|
    requires begin.CredentialsBegin? && begin.hash == dev.store[p].party.hash && Walk(seg, begin) && ConformsVia(dev, seg, cursors)
    requires k < |seg| && forall i :: 0 <= i < |seg| ==> seg[i].reply.Ok?
    ensures k < |dev.store[p].credentials| && cursors[k + 1] == AtCredential(p, k + 1)
    ensures seg[k].reply.value.credential == Some(dev.store[p].credentials[k])
    ensures k == 0 ==> seg[0].reply.value.totalCredentials == Told(dev, |dev.store[p].credentials|)
  {
    assert Serve(dev, cursors[k], seg[k].cmd) == (cursors[k + 1], seg[k].reply);
    if k == 0 {
      FindUnique(dev.store, p);
    } else {
      CredentialCursor(dev, seg, cursors, begin, p, k - 1);
    }
  }

  /** On a conforming device a complete walk over a party's credentials lists exactly those, in order. */
  lemma CredentialsAreTheStores(dev: Device, seg: seq<Entry>, begin: Command, p: nat, found: seq<Discoverable>)
    requires ValidStore(dev.store) && p < |dev.store|
    requires begin.CredentialsBegin? && begin.hash == dev.store[p].party.hash && Walk(seg, begin) && Conforms(dev, seg)
    requires CredentialsRead(seg, dev.store[p].party, found)
    ensures found == Shown(dev.store[p])
  {
    var cursors :| ConformsVia(dev, seg, cursors);
    CredentialCursor(dev, seg, cursors, begin, p, 0);
    forall k | 0 <= k < |found|
      ensures k < |dev.store[p].credentials| && found[k] == Discoverable(dev.store[p].party, dev.store[p].credentials[k])
    {
      CredentialCursor(dev, seg, cursors, begin, p, k);
    }
  }

  /** A GetNext inside its enumeration is one the device serves: it is never out of sequence or past the end. */
  lemma InsideIsServed(dev: Device, log: seq<Entry>, cursors: seq<Cursor>, k: nat)
    requires ValidStore(dev.store) && ConformsVia(dev, log, cursors) && k < |log| && Inside(log, k)
    ensures Serve(dev, cursors[k], log[k].cmd).1.Ok?
  {
    var j :| 0 <= j < k && InsideFrom(log, j, k);
    var begin, seg, mine := log[j].cmd, log[j..k], cursors[j..k + 1];
    assert Walk(seg, begin) && ConformsVia(dev, seg, mine);
    var last := k - j - 1;
    assert mine[last + 1] == cursors[k];
    if begin.RPsBegin? {
      PartyCursor(dev, seg, mine, begin, 0);
      PartyCursor(dev, seg, mine, begin, last);
    } else {
      assert Serve(dev, mine[0], seg[0].cmd) == (mine[1], seg[0].reply);
      var p := FindParty(dev.store, begin.hash).value;
      CredentialCursor(dev, seg, mine, begin, p, 0);
      CredentialCursor(dev, seg, mine, begin, p, last);
    }
  }
}

/** The listing (internal/client/ctap2/manager.go): nested enumerations, a retry, and the preview fallback. */
module CredentialListing {
  import opened Values
  import opened CredentialDevice
  import opened Walks

  const STANDARD := 0x0a
  const PREVIEW := 0x41

  datatype Info = Info(credMgmt: bool, preview: bool, protocols: seq<nat>)

  datatype Listing = Listing(existing: nat, remaining: nat, credentials: seq<Discoverable>)

  function CommandCode(info: Option<Info>): Result<nat, Error> {
    if info.None? then Err(Unsupported)
    else if info.value.credMgmt then Ok(STANDARD)
    else if info.value.preview then Ok(PREVIEW)
    else Err(Unsupported)
  }

  function SelectProtocol(protocols: seq<nat>): Result<nat, Error> {
    if |protocols| == 0 then Ok(1)
    else if 2 in protocols then Ok(2)
    else if 1 in protocols then Ok(1)
    else Err(Unsupported)
  }

  predicate RetriesSame(e: Error) {
    e == Status(0x12)
  }

  predicate RetriesPreview(info: Info, e: Error) {
    info.preview && e.Status? && e.code in {0x01, 0x02, 0x12, 0x14, 0x2b, 0x2c, 0x36, 0x3e, 0x40}
  }

  /** The pieces of an attempt that succeeded. */
  datatype Pieces = Pieces(token: Entry, meta: Entry, rps: seq<Entry>, parties: seq<Party>, walks: seq<seq<Entry>>, lists: seq<seq<Discoverable>>)

  ghost predicate WalksOver(walks: seq<seq<Entry>>, lists: seq<seq<Discoverable>>, parties: seq<Party>, code: nat, protocol: nat, token: string) {
    && |walks| == |lists| <= |parties|
    && forall i :: 0 <= i < |walks| ==>
                     && Walk(walks[i], CredentialsBegin(code, protocol, token, parties[i].hash))
                     && CredentialsRead(walks[i], parties[i], lists[i])
  }

  /** A successful attempt: token, metadata and, unless the metadata counts nothing, all parties and then all their credentials. */
  ghost predicate Lists(seg: seq<Entry>, code: nat, protocol: nat, p: Pieces, r: Listing) {
    && p.token.cmd == GetToken(code) && p.token.reply.Ok?
    && var token := p.token.reply.value.token;
    && p.meta.cmd == Metadata(code, protocol, token) && p.meta.reply.Ok?
    && r.existing == p.meta.reply.value.existing && r.remaining == p.meta.reply.value.remaining
    && if r.existing == 0 then seg == [p.token, p.meta] && r.credentials == []
       else && seg == [p.token, p.meta] + p.rps + Flatten(p.walks)
            && Walk(p.rps, RPsBegin(code, protocol, token)) && PartiesRead(p.rps, p.parties)
            && |p.walks| == |p.parties| && WalksOver(p.walks, p.lists, p.parties, code, protocol, token)
            && r.credentials == Flatten(p.lists)
  }

  /** The answer lacks what its command asks for. */
  predicate Lacks(cmd: Command, r: Response) {
    match cmd
    case RPsNext(_) => r.party.None?
    case CredentialsBegin(_, _, _, _) => r.credential.None?
    case CredentialsNext(_) => r.credential.None?
    case _ => false
  }

  /** The last call of a failed attempt is the one that failed it. */
  ghost predicate Fails(seg: seq<Entry>, e: Error) {
    && seg != []
    && (forall k :: 0 <= k < |seg| - 1 ==> seg[k].reply.Ok?)
    && var last := seg[|seg| - 1];
       last.reply == Err(e) || (last.reply.Ok? && e == Incomplete && Lacks(last.cmd, last.reply.value))
  }

  ghost predicate AllAnswered(seg: seq<Entry>) {
    forall k :: 0 <= k < |seg| ==> seg[k].reply.Ok?
  }

  lemma FailsLater(held: seq<Entry>, seg: seq<Entry>, e: Error)
    requires AllAnswered(held) && Fails(seg, e)
    ensures Fails(held + seg, e)
  {
    assert (held + seg)[|held + seg| - 1] == seg[|seg| - 1];
  }

  /** One more complete walk. */
  lemma WalksSnoc(walks: seq<seq<Entry>>, lists: seq<seq<Discoverable>>, parties: seq<Party>, code: nat, protocol: nat, token: string,
                  walk: seq<Entry>, found: seq<Discoverable>)
    requires WalksOver(walks, lists, parties, code, protocol, token) && |walks| < |parties|
    requires Walk(walk, CredentialsBegin(code, protocol, token, parties[|walks|].hash)) && CredentialsRead(walk, parties[|walks|], found)
    ensures WalksOver(walks + [walk], lists + [found], parties, code, protocol, token)
  {
    var ws, ls := walks + [walk], lists + [found];
    forall i | 0 <= i < |ws|
      ensures Walk(ws[i], CredentialsBegin(code, protocol, token, parties[i].hash)) && CredentialsRead(ws[i], parties[i], ls[i])
    {
      if i < |walks| {
        assert ws[i] == walks[i] && ls[i] == lists[i];
      }
    }
  }

  lemma AllAnsweredAppend(held: seq<Entry>, seg: seq<Entry>)
    requires AllAnswered(held) && AllAnswered(seg)
    ensures AllAnswered(held + seg)
  {
  }

  // ----- A listing is the store --------------------------------------------------------------

  function ShownAll(store: seq<Group>): seq<seq<Discoverable>> {
    seq(|store|, i requires 0 <= i < |store| => Shown(store[i]))
  }

  lemma {:induction false} FlattenPart<T>(parts: seq<seq<T>>, i: nat) returns (before: seq<T>, after: seq<T>)
    requires i < |parts|
    ensures Flatten(parts) == before + parts[i] + after
    decreases i
  {
    if i == 0 {
      before, after := [], Flatten(parts[1..]);
    } else {
      before, after := FlattenPart(parts[1..], i - 1);
      assert parts[0] + (before + parts[i] + after) == (parts[0] + before) + parts[i] + after;
      before := parts[0] + before;
    }
  }

  lemma CountZero(store: seq<Group>)
    requires ValidStore(store)
    ensures Count(store) == 0 ==> store == []
  {
    if store != [] {
      assert store[|store| - 1].credentials != [];
    }
  }

  lemma WalkConforms(dev: Device, seg: seq<Entry>, start: seq<Entry>, walks: seq<seq<Entry>>, i: nat)
    requires i < |walks| && seg == start + Flatten(walks) && Conforms(dev, seg)
    ensures Conforms(dev, walks[i])
  {
    var before, after := FlattenPart(walks, i);
    assert seg == (start + before) + walks[i] + after;
    ConformsPart(dev, start + before, walks[i], after);
  }

  /** Whatever attempt succeeded, on a conforming device its listing is exactly the store, grouped in the store's order. */
  lemma ListingIsTheStore(dev: Device, seg: seq<Entry>, code: nat, protocol: nat, p: Pieces, r: Listing)
    requires ValidStore(dev.store) && Conforms(dev, seg) && Lists(seg, code, protocol, p, r)
    ensures r == Listing(Count(dev.store), dev.remaining, Flatten(ShownAll(dev.store)))
  {
    var start := [p.token, p.meta];
    var rest := if r.existing == 0 then [] else p.rps + Flatten(p.walks);
    assert seg == [p.token] + [p.meta] + rest;
    ConformsPart(dev, [p.token], [p.meta], rest);
    var cursors :| ConformsVia(dev, [p.meta], cursors);
    assert Serve(dev, cursors[0], [p.meta][0].cmd) == (cursors[1], [p.meta][0].reply);
    if r.existing == 0 {
      CountZero(dev.store);
    } else {
      ConformsPart(dev, start, p.rps, Flatten(p.walks));
      PartiesAreTheStores(dev, p.rps, RPsBegin(code, protocol, p.token.reply.value.token), p.parties);
      forall i | 0 <= i < |p.lists| ensures p.lists[i] == ShownAll(dev.store)[i] {
        WalkConforms(dev, seg, start + p.rps, p.walks, i);
        CredentialsAreTheStores(dev, p.walks[i], CredentialsBegin(code, protocol, p.token.reply.value.token, p.parties[i].hash), i, p.lists[i]);
      }
      assert p.lists == ShownAll(dev.store);
    }
  }

  // ----- Attempts ------------------------------------------------------------------------------

  datatype Attempt = Attempt(code: nat, seg: seq<Entry>, result: Result<Listing, Error>)

  /** A whole attempt from its own token on: it listed everything, or its last call failed. */
  ghost predicate Genuine(a: Attempt, protocol: nat) {
    && a.seg != [] && a.seg[0].cmd == GetToken(a.code)
    && match a.result
       case Ok(listing) => exists p: Pieces :: Lists(a.seg, a.code, protocol, p, listing)
       case Err(e) => Fails(a.seg, e)
  }

  /** What follows the k-th attempt when it fails: the same command once more, or the preview command, or nothing. */
  function Following(info: Info, previewSource: bool, k: nat, code: nat, e: Error): Option<nat> {
    if k == 0 && RetriesSame(e) then Some(code)
    else if code == STANDARD && previewSource && RetriesPreview(info, e) then Some(PREVIEW)
    else None
  }

  /**
   After the first attempt a status of 0x12 is tried again with the same command; otherwise, and after that retry,
   the standard command falls back to the preview command on the nine statuses that can mean it is not there.
   */
  lemma FollowingExact(info: Info, previewSource: bool, k: nat, code: nat, e: Error)
    ensures Following(info, previewSource, k, code, e) ==
            if k == 0 && e == Status(0x12) then Some(code)
            else if && code == 0x0a && previewSource && info.preview && e.Status?
                    && (e.code == 0x01 || e.code == 0x02 || e.code == 0x12 || e.code == 0x14 || e.code == 0x2b
                        || e.code == 0x2c || e.code == 0x36 || e.code == 0x3e || e.code == 0x40) then Some(0x41)
            else None
  {
  }

  /** Protocol 2 if offered, then 1; 1 also when nothing is offered. */
  lemma ProtocolExact(protocols: seq<nat>)
    ensures SelectProtocol(protocols) == Ok(2) <==> 2 in protocols
    ensures SelectProtocol(protocols) == Ok(1) <==> protocols == [] || (1 in protocols && 2 !in protocols)
    ensures SelectProtocol(protocols).Err? <==> protocols != [] && 1 !in protocols && 2 !in protocols
  {
  }

  /** What the failure of the last attempt calls for. */
  function Due(info: Info, previewSource: bool, attempts: seq<Attempt>): Option<nat> {
    if attempts == [] || attempts[|attempts| - 1].result.Ok? then None
    else
      var last := attempts[|attempts| - 1];
      Following(info, previewSource, |attempts| - 1, last.code, last.result.error)
  }

  /** Attempts follow one another only after a failure that asks for it. */
  ghost predicate Chain(info: Info, previewSource: bool, code: nat, attempts: seq<Attempt>) {
    && attempts != [] && attempts[0].code == code
    && forall k :: 1 <= k < |attempts| ==> Due(info, previewSource, attempts[..k]) == Some(attempts[k].code)
  }

  lemma ChainSnoc(info: Info, previewSource: bool, code: nat, attempts: seq<Attempt>, longer: seq<Attempt>)
    requires Chain(info, previewSource, code, attempts) && |longer| == |attempts| + 1 && longer[..|attempts|] == attempts
    requires Due(info, previewSource, attempts) == Some(longer[|attempts|].code)
    ensures Chain(info, previewSource, code, longer)
  {
    assert longer[0] == longer[..|attempts|][0];
    forall k | 1 <= k < |longer| ensures Due(info, previewSource, longer[..k]) == Some(longer[k].code) {
      if k < |attempts| {
        assert longer[..k] == attempts[..k] && longer[k] == attempts[k];
      }
    }
  }

  /** They stop as soon as nothing is due, which is after three of them at most. */
  ghost predicate Policy(info: Info, previewSource: bool, code: nat, attempts: seq<Attempt>) {
    |attempts| <= 3 && Chain(info, previewSource, code, attempts) && Due(info, previewSource, attempts) == None
  }

  /** The calls of all attempts, in order. */
  function History(attempts: seq<Attempt>): seq<Entry> {
    if attempts == [] then [] else History(attempts[..|attempts| - 1]) + attempts[|attempts| - 1].seg
  }

  lemma HistorySnoc(start: seq<Entry>, attempts: seq<Attempt>, a: Attempt)
    ensures start + History(attempts + [a]) == start + History(attempts) + a.seg
  {
    assert (attempts + [a])[..|attempts|] == attempts;
  }

  function StoreListing(dev: Device): Listing {
    Listing(Count(dev.store), dev.remaining, Flatten(ShownAll(dev.store)))
  }

  /** The log since the start is these attempts and nothing else, and the last of them gave the result. */
  ghost predicate Recorded(start: seq<Entry>, log: seq<Entry>, attempts: seq<Attempt>, protocol: nat, r: Result<Listing, Error>) {
    && attempts != [] && log == start + History(attempts) && r == attempts[|attempts| - 1].result
    && forall k :: 0 <= k < |attempts| ==> Genuine(attempts[k], protocol)
  }

  /** Only the last attempt speaks, so the earlier ones cannot leak into the listing. */
  lemma RecordedIsTheStore(start: seq<Entry>, log: seq<Entry>, attempts: seq<Attempt>, protocol: nat, r: Result<Listing, Error>)
    requires Recorded(start, log, attempts, protocol, r) && r.Ok?
    ensures forall dev: Device :: ValidStore(dev.store) && Conforms(dev, log) ==> r.value == StoreListing(dev)
  {
    var a, before := attempts[|attempts| - 1], start + History(attempts[..|attempts| - 1]);
    assert log == before + a.seg + [];
    var p: Pieces :| Lists(a.seg, a.code, protocol, p, a.result.value);
    forall dev: Device | ValidStore(dev.store) && Conforms(dev, log) ensures r.value == StoreListing(dev) {
      ConformsPart(dev, before, a.seg, []);
      ListingIsTheStore(dev, a.seg, a.code, protocol, p, a.result.value);
    }
  }

  // ----- The manager ---------------------------------------------------------------------------

  /** The invoker and the calls made through it: replies still to come, and the history. */
  class Manager {
    var script: seq<Reply>
    var log: seq<Entry>

    constructor (replies: seq<Reply>)
      ensures script == replies && log == []
    {
      script, log := replies, [];
    }

    method Invoke(cmd: Command) returns (reply: Reply)
      modifies this
      ensures log == old(log) + [Entry(cmd, reply)]
    {
      if script == [] {
        reply := Err(Failed);
      } else {
        reply := script[0];
        script := script[1..];
      }
      log := log + [Entry(cmd, reply)];
    }

    method EnumerateRelyingParties(code: nat, protocol: nat, token: string) returns (r: Result<seq<Party>, Error>, ghost seg: seq<Entry>)
      modifies this
      ensures log == old(log) + seg && Walk(seg, RPsBegin(code, protocol, token))
      ensures match r case Ok(parties) => PartiesRead(seg, parties) case Err(e) => Fails(seg, e)
    {
      var begin := RPsBegin(code, protocol, token);
      var response := Invoke(begin);
      seg := [Entry(begin, response)];
      if response.Err? {
        return Err(response.error), seg;
      }
      if response.value.party.None? {
        return Ok([]), seg;
      }
      var result := [response.value.party.value];
      var total := response.value.totalRPs;
      if total == 0 {
        total := 1;
      }
      while |result| < total
        invariant log == old(log) + seg && Walk(seg, begin)
        invariant |seg| == |result| <= total && seg[0].reply.Ok? && total == Announced(begin, seg[0].reply.value)
        invariant forall k :: 0 <= k < |seg| ==> seg[k].reply.Ok? && seg[k].reply.value.party == Some(result[k])
        decreases total - |result|
      {
        var next := Invoke(RPsNext(code));
        seg := seg + [Entry(RPsNext(code), next)];
        if next.Err? {
          return Err(next.error), seg;
        }
        if next.value.party.None? {
          return Err(Incomplete), seg;
        }
        result := result + [next.value.party.value];
      }
      r := Ok(result);
    }

    method EnumerateCredentials(code: nat, protocol: nat, token: string, party: Party) returns (r: Result<seq<Discoverable>, Error>, ghost seg: seq<Entry>)
      modifies this
      ensures log == old(log) + seg && Walk(seg, CredentialsBegin(code, protocol, token, party.hash))
      ensures match r case Ok(found) => CredentialsRead(seg, party, found) case Err(e) => Fails(seg, e)
    {
      var begin := CredentialsBegin(code, protocol, token, party.hash);
      var response := Invoke(begin);
      seg := [Entry(begin, response)];
      if response.Err? {
        return Err(response.error), seg;
      }
      if response.value.credential.None? {
        return Err(Incomplete), seg;
      }
      var result := [Discoverable(party, response.value.credential.value)];
      var total := response.value.totalCredentials;
      if total == 0 {
        total := 1;
      }
      while |result| < total
        invariant log == old(log) + seg && Walk(seg, begin)
        invariant |seg| == |result| <= total && seg[0].reply.Ok? && total == Announced(begin, seg[0].reply.value)
        invariant forall k :: 0 <= k < |seg| ==>
                                && seg[k].reply.Ok? && seg[k].reply.value.credential.Some?
                                && result[k] == Discoverable(party, seg[k].reply.value.credential.value)
        decreases total - |result|
      {
        var next := Invoke(CredentialsNext(code));
        seg := seg + [Entry(CredentialsNext(code), next)];
        if next.Err? {
          return Err(next.error), seg;
        }
        if next.value.credential.None? {
          return Err(Incomplete), seg;
        }
        result := result + [Discoverable(party, next.value.credential.value)];
      }
      r := Ok(result);
    }

    /** The credentials of each relying party in turn. */
    method ListParties(code: nat, protocol: nat, token: string, parties: seq<Party>)
      returns (r: Result<seq<Discoverable>, Error>, ghost seg: seq<Entry>, ghost walks: seq<seq<Entry>>, ghost lists: seq<seq<Discoverable>>)
      requires NextsInside(log)
      modifies this
      ensures log == old(log) + seg && NextsInside(log)
      ensures r.Ok? ==> && seg == Flatten(walks) && |walks| == |parties| && WalksOver(walks, lists, parties, code, protocol, token)
                        && r.value == Flatten(lists)
      ensures r.Err? ==> Fails(seg, r.error)
    {
      ghost var before := log;
      var result := [];
      walks, lists := [], [];
      for i := 0 to |parties|
        invariant log == before + Flatten(walks) && NextsInside(log)
        invariant |walks| == i && WalksOver(walks, lists, parties, code, protocol, token) && AllAnswered(Flatten(walks))
        invariant result == Flatten(lists)
      {
        ghost var sofar := log;
        var found, walk := EnumerateCredentials(code, protocol, token, parties[i]);
        WalkStaysInside(sofar, walk, CredentialsBegin(code, protocol, token, parties[i].hash));
        assert log == before + (Flatten(walks) + walk);
        if found.Err? {
          FailsLater(Flatten(walks), walk, found.error);
          return Err(found.error), Flatten(walks) + walk, walks, lists;
        }
        WalksSnoc(walks, lists, parties, code, protocol, token, walk, found.value);
        AllAnsweredAppend(Flatten(walks), walk);
        FlattenSnoc(walks, walk);
        FlattenSnoc(lists, found.value);
        walks, lists := walks + [walk], lists + [found.value];
        result := result + found.value;
      }
      seg := Flatten(walks);
      r := Ok(result);
    }

    /** One attempt with one command code and a token of its own. */
    method ListWithCommand(code: nat, protocol: nat) returns (r: Result<Listing, Error>, ghost seg: seq<Entry>, ghost pieces: Pieces)
      requires NextsInside(log)
      modifies this
      ensures log == old(log) + seg && NextsInside(log)
      ensures seg != [] && seg[0].cmd == GetToken(code)
      ensures match r case Ok(listing) => Lists(seg, code, protocol, pieces, listing) case Err(e) => Fails(seg, e)
    {
      ghost var before := log;
      var token := Invoke(GetToken(code));
      ghost var tokenEntry := Entry(GetToken(code), token);
      pieces := Pieces(tokenEntry, tokenEntry, [], [], [], []);
      seg := [tokenEntry];
      OtherStaysInside(before, tokenEntry);
      if token.Err? {
        return Err(token.error), seg, pieces;
      }
      var pinToken := token.value.token;
      var meta := Invoke(Metadata(code, protocol, pinToken));
      ghost var metaEntry := Entry(Metadata(code, protocol, pinToken), meta);
      seg := [tokenEntry, metaEntry];
      pieces := pieces.(meta := metaEntry);
      OtherStaysInside(before + [tokenEntry], metaEntry);
      assert log == before + seg;
      if meta.Err? {
        return Err(meta.error), seg, pieces;
      }
      var listing := Listing(meta.value.existing, meta.value.remaining, []);
      if listing.existing == 0 {
        return Ok(listing), seg, pieces;
      }
      ghost var beforeWalk := log;
      var parties, rps := EnumerateRelyingParties(code, protocol, pinToken);
      WalkStaysInside(beforeWalk, rps, RPsBegin(code, protocol, pinToken));
      ghost var start := [tokenEntry, metaEntry] + rps;
      seg := start;
      assert log == before + seg;
      if parties.Err? {
        return Err(parties.error), seg, pieces;
      }
      var found, rest, walks, lists := ListParties(code, protocol, pinToken, parties.value);
      seg := start + rest;
      assert log == before + seg;
      if found.Err? {
        FailsLater(start, rest, found.error);
        return Err(found.error), seg, pieces;
      }
      listing := listing.(credentials := found.value);
      pieces := Pieces(tokenEntry, metaEntry, rps, parties.value, walks, lists);
      r := Ok(listing);
    }

    method TryCommand(code: nat, protocol: nat, ghost start: seq<Entry>, ghost before: seq<Attempt>)
      returns (r: Result<Listing, Error>, ghost attempts: seq<Attempt>)
      requires NextsInside(log) && log == start + History(before)
      requires forall k :: 0 <= k < |before| ==> Genuine(before[k], protocol)
      modifies this
      ensures NextsInside(log) && Recorded(start, log, attempts, protocol, r)
      ensures |attempts| == |before| + 1 && attempts[..|before|] == before && attempts[|before|].code == code
    {
      ghost var seg, pieces;
      r, seg, pieces := ListWithCommand(code, protocol);
      ghost var a := Attempt(code, seg, r);
      assert Genuine(a, protocol);
      HistorySnoc(start, before, a);
      attempts := before + [a];
    }

    method Attempts(info: Info, previewSource: bool, code: nat, protocol: nat) returns (r: Result<Listing, Error>, ghost attempts: seq<Attempt>)
      requires NextsInside(log)
      modifies this
      ensures NextsInside(log) && Policy(info, previewSource, code, attempts) && Recorded(old(log), log, attempts, protocol, r)
    {
      ghost var start := log;
      assert start == start + History([]);
      r, attempts := TryCommand(code, protocol, start, []);
      assert Chain(info, previewSource, code, attempts);
      if r.Err? && RetriesSame(r.error) {
        ghost var first := attempts;
        r, attempts := TryCommand(code, protocol, start, attempts);
        ChainSnoc(info, previewSource, code, first, attempts);
      }
      if r.Err? && code == STANDARD && previewSource && RetriesPreview(info, r.error) {
        ghost var earlier := attempts;
        r, attempts := TryCommand(PREVIEW, protocol, start, attempts);
        ChainSnoc(info, previewSource, code, earlier, attempts);
      }
    }

    /** The listing: at most three attempts, each on its own, and the last one's answer. */
    method ListCredentials(info: Option<Info>, previewSource: bool) returns (r: Result<Listing, Error>, ghost attempts: seq<Attempt>)
      requires NextsInside(log)
      modifies this
      ensures NextsInside(log)
      ensures CommandCode(info).Err? || SelectProtocol(info.value.protocols).Err? ==> r.Err? && log == old(log) && attempts == []
      ensures CommandCode(info).Ok? && SelectProtocol(info.value.protocols).Ok? ==>
                && Policy(info.value, previewSource, CommandCode(info).value, attempts)
                && Recorded(old(log), log, attempts, SelectProtocol(info.value.protocols).value, r)
      ensures info.Some? && info.value.credMgmt && attempts != [] ==> attempts[0].code == 0x0a
      ensures info.Some? && !info.value.credMgmt && info.value.preview && attempts != [] ==> attempts[0].code == 0x41
      ensures attempts == [] <==> info.None? || (!info.value.credMgmt && !info.value.preview) ||
                                  (info.value.protocols != [] && 1 !in info.value.protocols && 2 !in info.value.protocols)
      ensures r.Ok? ==> forall dev: Device :: ValidStore(dev.store) && Conforms(dev, log) ==> r.value == StoreListing(dev)
    {
      var command := CommandCode(info);
      if command.Err? {
        return Err(command.error), [];
      }
      var selected := SelectProtocol(info.value.protocols);
      if selected.Err? {
        return Err(selected.error), [];
      }
      ghost var start := log;
      r, attempts := Attempts(info.value, previewSource, command.value, selected.value);
      if r.Ok? {
        RecordedIsTheStore(start, log, attempts, selected.value, r);
      }
    }
  }
}
