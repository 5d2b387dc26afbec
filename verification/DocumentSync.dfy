/** The push of unsaved buffers of extension/src/engine/documentSync.ts, with
    the engine's copy its notifications build in engine/src/cache/doc_overlay.h. */
module DocumentSync {
  import opened Utf8
  import LruCache
  import opened Wrappers

  // Where the engine files a buffer.
  datatype Place = Place(repoId: string, path: string)

  datatype Notice = DidChange(place: Place, contents: seq<Unit>, version: int) | DidClose(place: Place)

  datatype Held = Held(contents: seq<Unit>, version: int)

  // What was sent last for each place and not closed since.
  function HeldAfter(sent: seq<Notice>): map<Place, Held> {
    if sent == [] then map[] else
      var before := HeldAfter(sent[..|sent| - 1]);
      match sent[|sent| - 1]
      case DidChange(place, contents, version) => before[place := Held(contents, version)]
      case DidClose(place) => before - {place}
  }

  // A document as it is at one instant.
  datatype Document = Document(uri: string, version: int, isDirty: bool, isClosed: bool, text: seq<Unit>)

  datatype BufferState = Disk | Buffer(version: int) | TooLarge | Unavailable

  datatype Pushed = Pushed(place: Place, version: int)

  const MAX_BUFFER_BYTES: nat := 8 * 1024 * 1024

  // The places the editor knows the engine to hold a buffer at.
  function Named(pushed: map<string, Pushed>): set<Place> {
    set uri | uri in pushed :: pushed[uri].place
  }

  ghost predicate Owned(pushed: map<string, Pushed>, owner: Place -> string) {
    forall uri :: uri in pushed ==> owner(pushed[uri].place) == uri
  }

  lemma NamedWithout(pushed: map<string, Pushed>, owner: Place -> string, uri: string)
    requires Owned(pushed, owner)
    ensures Named(pushed - {uri}) == Named(pushed) - if uri in pushed then {pushed[uri].place} else {}
  {
    var rest := pushed - {uri};
    forall place | place in Named(pushed) && (uri in pushed ==> place != pushed[uri].place) ensures place in Named(rest) {
      var u :| u in pushed && pushed[u].place == place;
      assert u in rest && rest[u].place == place;
    }
    forall place | place in Named(rest) ensures place in Named(pushed) && (uri in pushed ==> place != pushed[uri].place) {
      var u :| u in rest && rest[u].place == place;
      assert u in pushed && pushed[u].place == place && owner(place) == u;
    }
  }

  lemma NamedWith(pushed: map<string, Pushed>, owner: Place -> string, uri: string, p: Pushed)
    requires Owned(pushed, owner) && owner(p.place) == uri
    ensures Named(pushed[uri := p]) == Named(pushed - {uri}) + {p.place} && p.place !in Named(pushed - {uri})
  {
    var rest, next := pushed - {uri}, pushed[uri := p];
    forall place | place in Named(rest) ensures place in Named(next) && place != p.place {
      var u :| u in rest && rest[u].place == place;
      assert u in next && next[u].place == place;
    }
    assert uri in next && next[uri].place == p.place;
    forall place | place in Named(next) ensures place in Named(rest) || place == p.place {
      var u :| u in next && next[u].place == place;
      if u != uri { assert u in rest && rest[u].place == place; }
    }
  }

  // The place a document's buffer was pushed to before, if another.
  function MovedFrom(pushed: map<string, Pushed>, uri: string, place: Place): set<Place> {
    if uri in pushed && pushed[uri].place != place then {pushed[uri].place} else {}
  }

  // What was last sent for each place named is the version named there, and
  // what was sent and not closed is what is named and what is lost.
  ghost predicate Agrees(pushed: map<string, Pushed>, held: map<Place, Held>, lost: set<Place>, owner: Place -> string) {
    && Owned(pushed, owner) && held.Keys == Named(pushed) + lost && Named(pushed) !! lost
    && forall uri :: uri in pushed ==> pushed[uri].place in held && held[pushed[uri].place].version == pushed[uri].version
  }

  lemma HeldMore(sent: seq<Notice>, n: Notice)
    ensures HeldAfter(sent + [n]) ==
      if n.DidChange? then HeldAfter(sent)[n.place := Held(n.contents, n.version)] else HeldAfter(sent) - {n.place}
  {
    assert (sent + [n])[..|sent|] == sent;
  }

  lemma OthersElsewhere(pushed: map<string, Pushed>, owner: Place -> string, uri: string, place: Place)
    requires Owned(pushed, owner) && (owner(place) == uri || (uri in pushed && pushed[uri].place == place))
    ensures forall u :: u in pushed && u != uri ==> pushed[u].place != place
  {
  }

  lemma ClosedAgrees(pushed: map<string, Pushed>, held: map<Place, Held>, lost: set<Place>, owner: Place -> string, uri: string)
    requires Agrees(pushed, held, lost, owner) && uri in pushed
    ensures Agrees(pushed - {uri}, held - {pushed[uri].place}, lost, owner)
  {
    NamedWithout(pushed, owner, uri);
    OthersElsewhere(pushed, owner, uri, pushed[uri].place);
    assert pushed[uri].place in Named(pushed);
    hide Named;
  }

  lemma ForgottenAgrees(pushed: map<string, Pushed>, held: map<Place, Held>, lost: set<Place>, owner: Place -> string, uri: string)
    requires Agrees(pushed, held, lost, owner)
    ensures Agrees(pushed - {uri}, held, lost + if uri in pushed then {pushed[uri].place} else {}, owner)
  {
    NamedWithout(pushed, owner, uri);
    assert uri in pushed ==> pushed[uri].place in Named(pushed);
    hide Named;
  }

  lemma ChangedAgrees(pushed: map<string, Pushed>, held: map<Place, Held>, lost: set<Place>, owner: Place -> string, uri: string,
                      place: Place, h: Held)
    requires Agrees(pushed, held, lost, owner) && owner(place) == uri
    ensures Agrees(pushed[uri := Pushed(place, h.version)], held[place := h], lost + MovedFrom(pushed, uri, place) - {place}, owner)
  {
    NamedWithout(pushed, owner, uri);
    NamedWith(pushed, owner, uri, Pushed(place, h.version));
    OthersElsewhere(pushed, owner, uri, place);
    assert uri in pushed ==> pushed[uri].place in Named(pushed);
    hide Named;
  }

  // Each method is what runs between two awaits; documents may change, close
  // and be saved between calls.
  class DocumentSync {
    const accepts: Document -> bool
    const maxBytes: nat
    // The document a place belongs to: one URI per path.
    ghost const owner: Place -> string
    var pushed: map<string, Pushed>
    var inflight: set<(string, int)>
    var tooLarge: map<string, int>
    // The notices sent to the engine now running.
    ghost var sent: seq<Notice>
    // Places sent a buffer that the editor no longer names.
    ghost var lost: set<Place>

    // What was last sent for the place a buffer was pushed to is the version
    // pushed; every buffer sent fits the limit; and what was sent and not
    // closed is what is named and what is lost.
    ghost predicate Valid()
      reads this
    {
      && Agrees(pushed, HeldAfter(sent), lost, owner)
      && forall n :: n in sent && n.DidChange? ==> Counted(n.contents) <= maxBytes
    }

    constructor (accepts: Document -> bool, maxBytes: Option<nat>, ghost owner: Place -> string)
      ensures Valid() && pushed == map[] && inflight == {} && tooLarge == map[] && sent == [] && lost == {}
      ensures this.accepts == accepts && this.owner == owner
      ensures this.maxBytes == if maxBytes.Some? then maxBytes.value else 8 * 1024 * 1024
    {
      this.accepts, this.owner := accepts, owner;
      this.maxBytes := if maxBytes.Some? then maxBytes.value else MAX_BUFFER_BYTES;
      pushed, inflight, tooLarge, sent, lost := map[], {}, map[], [], {};
    }

    // Tells the engine to forget a buffer it was pushed for the document.
    method Release(document: Document)
      requires Valid()
      modifies this`pushed, this`tooLarge, this`sent
      ensures Valid()
      ensures tooLarge == old(tooLarge) - {document.uri} && pushed == old(pushed) - {document.uri}
      ensures sent == old(sent) + if document.uri in old(pushed) then [DidClose(old(pushed)[document.uri].place)] else []
    {
      tooLarge := tooLarge - {document.uri};
      if document.uri !in pushed {
        return;
      }
      var place := pushed[document.uri].place;
      HeldMore(sent, DidClose(place));
      ClosedAgrees(pushed, HeldAfter(sent), lost, owner, document.uri);
      hide Agrees, HeldAfter;
      pushed := pushed - {document.uri};
      sent := sent + [DidClose(place)];
    }

    // The start of a sync: an answer, or none when a push is on its way.
    method Sync(document: Document) returns (state: Option<BufferState>)
      requires Valid()
      modifies this`pushed, this`tooLarge, this`sent, this`inflight
      ensures Valid()
      ensures state == if !accepts(document) || document.isClosed then Some(Unavailable)
                       else if !document.isDirty then Some(Disk)
                       else if document.uri in old(pushed) && old(pushed)[document.uri].version == document.version
                         then Some(Buffer(document.version))
                       else if document.uri in old(tooLarge) && old(tooLarge)[document.uri] == document.version
                         then Some(TooLarge)
                       else None
      ensures state.None? ==> inflight == old(inflight) + {(document.uri, document.version)}
      ensures state.Some? ==> inflight == old(inflight)
      // A clean document is the disk's again; otherwise nothing is sent yet.
      ensures state == Some(Disk) ==>
        && pushed == old(pushed) - {document.uri} && tooLarge == old(tooLarge) - {document.uri}
        && sent == old(sent) + if document.uri in old(pushed) then [DidClose(old(pushed)[document.uri].place)] else []
      ensures state != Some(Disk) ==> sent == old(sent) && pushed == old(pushed) && tooLarge == old(tooLarge)
    {
      if !accepts(document) || document.isClosed {
        return Some(Unavailable);
      }
      if !document.isDirty {
        Release(document);
        return Some(Disk);
      }
      if document.uri in pushed && pushed[document.uri].version == document.version {
        return Some(Buffer(document.version));
      }
      if document.uri in tooLarge && tooLarge[document.uri] == document.version {
        return Some(TooLarge);
      }
      inflight := inflight + {(document.uri, document.version)};
      return None;
    }

    // The rest of a push, once the document's repository is located.
    method Push(flight: (string, int), document: Document, located: Option<Place>) returns (state: BufferState)
      requires Valid() && flight.0 == document.uri
      requires located.Some? ==> owner(located.value) == document.uri
      modifies this`pushed, this`tooLarge, this`sent, this`inflight, this`lost
      ensures Valid() && inflight == old(inflight) - {flight}
      // The version named is the one the engine has just been sent.
      ensures state.Buffer? ==>
        && located.Some? && pushed == old(pushed)[document.uri := Pushed(located.value, document.version)]
        && state.version == document.version
        && sent == old(sent) + [DidChange(located.value, document.text, document.version)]
      // A document that moved leaves its old place behind.
      ensures state.Buffer? ==> lost == old(lost) + MovedFrom(old(pushed), document.uri, located.value) - {located.value}
      ensures !state.Buffer? ==> lost == old(lost)
      // It is answered by what the document is once the lookup is back, however
      // it was when the push started.
      ensures state.Unavailable? <==> located.None? || document.isClosed
      ensures state.Disk? <==> located.Some? && !document.isClosed && !document.isDirty
      ensures state.TooLarge? <==> located.Some? && !document.isClosed && document.isDirty && Counted(document.text) > maxBytes
      ensures state.Unavailable? ==> sent == old(sent) && pushed == old(pushed) && tooLarge == old(tooLarge)
      ensures state.Disk? || state.TooLarge? ==>
        && pushed == old(pushed) - {document.uri}
        && sent == old(sent) + if document.uri in old(pushed) then [DidClose(old(pushed)[document.uri].place)] else []
      ensures state.Disk? || state.Buffer? ==> tooLarge == old(tooLarge) - {document.uri}
      ensures state.TooLarge? ==> tooLarge == old(tooLarge)[document.uri := document.version]
    {
      hide Agrees, HeldAfter, MovedFrom, Counted, Safe, Encode;
      inflight := inflight - {flight};
      if located.None? || document.isClosed {
        return Unavailable;
      }
      if !document.isDirty {
        Release(document);
        return Disk;
      }
      var fits := FitsBufferLimit(document.text, maxBytes);
      if !fits {
        Release(document);
        tooLarge := tooLarge[document.uri := document.version];
        return TooLarge;
      }
      tooLarge := tooLarge - {document.uri};
      var change := DidChange(located.value, document.text, document.version);
      HeldMore(sent, change);
      ChangedAgrees(pushed, HeldAfter(sent), lost, owner, document.uri, located.value, Held(document.text, document.version));
      lost := lost + MovedFrom(pushed, document.uri, located.value) - {located.value};
      sent := sent + [change];
      pushed := pushed[document.uri := Pushed(located.value, document.version)];
      return Buffer(document.version);
    }

    // A change of the document. A save or a close releases it outright.
    method Changed(document: Document)
      requires Valid()
      modifies this`pushed, this`tooLarge, this`sent
      ensures Valid() && pushed == if document.isDirty then old(pushed) else old(pushed) - {document.uri}
      ensures sent == old(sent) +
        if !document.isDirty && document.uri in old(pushed) then [DidClose(old(pushed)[document.uri].place)] else []
      ensures tooLarge == if document.isDirty then old(tooLarge) else old(tooLarge) - {document.uri}
    {
      if !document.isDirty {
        Release(document);
      }
    }

    // The engine answered for another version: push again next time. Until
    // then nothing names the buffer it was sent.
    method Forget(document: Document)
      requires Valid()
      modifies this`pushed, this`lost
      ensures Valid() && pushed == old(pushed) - {document.uri}
      ensures lost == old(lost) + if document.uri in old(pushed) then {old(pushed)[document.uri].place} else {}
    {
      ForgottenAgrees(pushed, HeldAfter(sent), lost, owner, document.uri);
      lost := lost + if document.uri in pushed then {pushed[document.uri].place} else {};
      pushed := pushed - {document.uri};
    }

    // A new engine holds nothing.
    method Resync()
      requires Valid()
      modifies this`pushed, this`sent, this`lost
      ensures Valid() && pushed == map[] && sent == [] && lost == {}
    {
      pushed := map[];
      sent := [];
      lost := {};
    }
  }

  // ----- the engine's side --------------------------------------------------

  type Docs = seq<LruCache.Item<LruCache.Doc>>

  function KeyOf(place: Place): string {
    LruCache.DocKey(place.repoId, place.path)
  }

  function ItemOf(n: Notice): LruCache.Item<LruCache.Doc>
    requires n.DidChange?
  {
    LruCache.Item(KeyOf(n.place), LruCache.Doc(Encode(n.contents), n.version), |KeyOf(n.place)| + |Encode(n.contents)|)
  }

  // The engine's parser refuses an escaped surrogate without its partner, so
  // such a notice never gets as far as the overlay.
  predicate Arrives(n: Notice) {
    n.DidChange? ==> WellFormed(n.contents)
  }

  // The overlay after one notice, as its update and close leave it.
  function Received(docs: Docs, n: Notice, maxDocBytes: nat, budget: nat): Docs {
    if !Arrives(n) then docs
    else
      match n
      case DidChange(place, contents, version) =>
        if |Encode(contents)| > maxDocBytes then LruCache.Without(docs, KeyOf(place)) else LruCache.Stored(docs, ItemOf(n), budget)
      case DidClose(place) => LruCache.Without(docs, KeyOf(place))
  }

  function Overlay(sent: seq<Notice>, maxDocBytes: nat, budget: nat): Docs {
    if sent == [] then [] else Received(Overlay(sent[..|sent| - 1], maxDocBytes, budget), sent[|sent| - 1], maxDocBytes, budget)
  }

  // What arrived last for each place and was not closed since.
  function Gotten(sent: seq<Notice>): map<Place, Held> {
    if sent == [] then map[] else
      var before, n := Gotten(sent[..|sent| - 1]), sent[|sent| - 1];
      if !Arrives(n) then before
      else
        match n
        case DidChange(place, contents, version) => before[place := Held(contents, version)]
        case DidClose(place) => before - {place}
  }

  // A buffer the engine keeps.
  predicate Fits(held: Held, maxDocBytes: nat) { |Encode(held.contents)| <= maxDocBytes }

  // A notice that has nothing evicted.
  predicate Roomy(docs: Docs, n: Notice, maxDocBytes: nat, budget: nat) {
    n.DidChange? && Arrives(n) && |Encode(n.contents)| <= maxDocBytes ==>
      LruCache.Sum([ItemOf(n)] + LruCache.Without(docs, KeyOf(n.place))) <= budget
  }

  ghost predicate NeverEvicts(sent: seq<Notice>, maxDocBytes: nat, budget: nat) {
    forall k :: 0 <= k < |sent| ==> Roomy(Overlay(sent[..k], maxDocBytes, budget), sent[k], maxDocBytes, budget)
  }

  // Repository ids hold no zero byte.
  ghost predicate PlainIds(sent: seq<Notice>) {
    forall n :: n in sent ==> '\0' !in n.place.repoId
  }

  lemma KeysTell(a: Place, b: Place)
    requires '\0' !in a.repoId && '\0' !in b.repoId && KeyOf(a) == KeyOf(b)
    ensures a == b
  {
    LruCache.ClosesOneRepo('\0', a.repoId, b.repoId, b.path);
    assert a.repoId + ['\0'] <= KeyOf(a);
    assert KeyOf(a)[|a.repoId| + 1..] == a.path && KeyOf(b)[|b.repoId| + 1..] == b.path;
  }

  // Fed the notices in order and not evicting, the overlay holds for every
  // place the version and the text that arrived last and was not closed since,
  // exactly when that text fits.
  lemma {:induction false} OverlayHolds(sent: seq<Notice>, maxDocBytes: nat, budget: nat, place: Place)
    requires NeverEvicts(sent, maxDocBytes, budget) && PlainIds(sent) && '\0' !in place.repoId
    ensures var found, gotten := LruCache.Find(Overlay(sent, maxDocBytes, budget), KeyOf(place)), Gotten(sent);
      && (found.Some? <==> place in gotten && Fits(gotten[place], maxDocBytes))
      && (found.Some? ==> found.value.value == LruCache.Doc(Encode(gotten[place].contents), gotten[place].version))
  {
    if sent != [] {
      var n, before := sent[|sent| - 1], sent[..|sent| - 1];
      var docs := Overlay(before, maxDocBytes, budget);
      forall k | 0 <= k < |before| ensures Roomy(Overlay(before[..k], maxDocBytes, budget), before[k], maxDocBytes, budget) {
        assert before[..k] == sent[..k];
      }
      OverlayHolds(before, maxDocBytes, budget, place);
      assert n in sent && Roomy(docs, n, maxDocBytes, budget);
      ReceivedHolds(docs, n, maxDocBytes, budget, KeyOf(place));
      if KeyOf(n.place) == KeyOf(place) { KeysTell(n.place, place); }
      hide Encode, WellFormed, KeyOf, LruCache.Find, Received, Roomy;
    }
  }

  lemma ReceivedHolds(docs: Docs, n: Notice, maxDocBytes: nat, budget: nat, key: string)
    requires Roomy(docs, n, maxDocBytes, budget)
    ensures LruCache.Find(Received(docs, n, maxDocBytes, budget), key)
      == if key != KeyOf(n.place) || !Arrives(n) then LruCache.Find(docs, key)
         else if n.DidChange? && |Encode(n.contents)| <= maxDocBytes then Some(ItemOf(n)) else None
  {
    var rest := LruCache.Without(docs, KeyOf(n.place));
    LruCache.WithoutFind(docs, KeyOf(n.place), key);
    if n.DidChange? {
      assert ([ItemOf(n)] + rest)[1..] == rest;
    }
  }

  // It is exactly the notices without such room that cost another buffer its
  // place, if there is another.
  lemma RoomyExactly(docs: Docs, n: Notice, maxDocBytes: nat, budget: nat)
    requires LruCache.Distinct(docs) && n.DidChange? && Arrives(n) && |Encode(n.contents)| <= maxDocBytes
    ensures Roomy(docs, n, maxDocBytes, budget) || LruCache.Without(docs, KeyOf(n.place)) == [] <==>
      forall key :: key != KeyOf(n.place) ==> LruCache.Find(Received(docs, n, maxDocBytes, budget), key) == LruCache.Find(docs, key)
  {
    var rest := LruCache.Without(docs, KeyOf(n.place));
    var all := [ItemOf(n)] + rest;
    if Roomy(docs, n, maxDocBytes, budget) {
      forall key | key != KeyOf(n.place)
        ensures LruCache.Find(Received(docs, n, maxDocBytes, budget), key) == LruCache.Find(docs, key)
      {
        ReceivedHolds(docs, n, maxDocBytes, budget, key);
      }
    } else if rest == [] {
      forall key | key != KeyOf(n.place) ensures LruCache.Find(docs, key) == None {
        LruCache.WithoutFind(docs, KeyOf(n.place), key);
      }
    } else {
      LruCache.KeepIsLongest(all, budget);
      var k := |LruCache.Keep(all, budget)|;
      assert all[..|all|] == all;
      LruCache.WithoutDistinct(docs, KeyOf(n.place));
      LruCache.WithoutFind(docs, KeyOf(n.place), KeyOf(n.place));
      assert all[1..] == rest;
      LruCache.FindAt(all, k, k);
      LruCache.FindAt(all, 0, |all|);
      EvictedKey(docs, rest, all, n, k);
    }
  }

  lemma EvictedKey(docs: Docs, rest: Docs, all: Docs, n: Notice, k: nat)
    requires n.DidChange? && rest == LruCache.Without(docs, KeyOf(n.place)) && all == [ItemOf(n)] + rest && 0 < k < |all|
    requires LruCache.Distinct(all) && LruCache.Find(all, all[k].key) == Some(all[k])
    ensures all[k].key != KeyOf(n.place) && LruCache.Find(docs, all[k].key).Some?
  {
    LruCache.FindAt(rest, k - 1, |rest|);
    LruCache.WithoutFind(docs, KeyOf(n.place), all[k].key);
  }

  // Notice i is the last change of the place, with no close behind it.
  ghost predicate LastFor(sent: seq<Notice>, i: int, held: Held, place: Place) {
    && 0 <= i < |sent| && sent[i] == DidChange(place, held.contents, held.version)
    && forall k :: i < k < |sent| ==> sent[k] != DidClose(place)
  }

  lemma {:induction false} HeldFrom(sent: seq<Notice>, place: Place) returns (j: int)
    requires place in HeldAfter(sent)
    ensures LastFor(sent, j, HeldAfter(sent)[place], place)
    ensures forall k :: j < k < |sent| && sent[k].DidChange? ==> sent[k].place != place
  {
    var n, before := sent[|sent| - 1], sent[..|sent| - 1];
    if n.DidChange? && n.place == place {
      j := |sent| - 1;
    } else {
      j := HeldFrom(before, place);
      assert before[j] == sent[j];
      assert forall k :: j < k < |before| ==> before[k] == sent[k];
    }
  }

  lemma {:induction false} GottenFrom(sent: seq<Notice>, place: Place) returns (i: int)
    requires place in Gotten(sent)
    ensures LastFor(sent, i, Gotten(sent)[place], place) && WellFormed(Gotten(sent)[place].contents)
  {
    hide WellFormed;
    var n, before := sent[|sent| - 1], sent[..|sent| - 1];
    if n.DidChange? && n.place == place && Arrives(n) {
      i := |sent| - 1;
    } else {
      i := GottenFrom(before, place);
      assert before[i] == sent[i];
      assert forall k :: i < k < |before| ==> before[k] == sent[k];
    }
  }

  // A well-formed text last sent is the one that arrived last.
  lemma {:induction false} WellFormedArrives(sent: seq<Notice>, place: Place)
    requires place in HeldAfter(sent) && WellFormed(HeldAfter(sent)[place].contents)
    ensures place in Gotten(sent) && Gotten(sent)[place] == HeldAfter(sent)[place]
  {
    hide WellFormed;
    var n, before := sent[|sent| - 1], sent[..|sent| - 1];
    if !(n.DidChange? && n.place == place) { WellFormedArrives(before, place); }
  }

  lemma {:induction false} GottenIsHeld(sent: seq<Notice>, place: Place)
    requires place in Gotten(sent)
    ensures place in HeldAfter(sent)
  {
    hide WellFormed;
    var n, before := sent[|sent| - 1], sent[..|sent| - 1];
    if place in Gotten(before) { GottenIsHeld(before, place); }
  }

  // A buffer at the engine goes unnamed exactly when its document was
  // forgotten or moved and the place has not been pushed to since.
  lemma OnlyLostLinger(sync: DocumentSync, place: Place)
    requires sync.Valid() && place in Gotten(sync.sent)
    ensures (exists uri :: uri in sync.pushed && sync.pushed[uri].place == place) <==> place !in sync.lost
  {
    GottenIsHeld(sync.sent, place);
    assert place in Named(sync.pushed) <==> exists uri :: uri in sync.pushed && sync.pushed[uri].place == place;
    hide HeldAfter, Gotten;
  }

  // So a buffer forgotten and then released is never closed.
  method ForgottenStays(sync: DocumentSync, document: Document)
    requires sync.Valid() && document.uri in sync.pushed
    modifies sync
    ensures sync.Valid() && sync.sent == old(sync.sent) && document.uri !in sync.pushed
    ensures old(sync.pushed[document.uri].place) in sync.lost
  {
    sync.Forget(document);
    sync.Release(document);
  }

  // Between closes, one version of a document is one text.
  ghost predicate VersionsTell(sent: seq<Notice>) {
    forall i, j, held: Held, other: Held, place ::
      i < j && LastFor(sent, i, held, place) && LastFor(sent, j, other, place) && held.version == other.version ==> held == other
  }

  // For every buffer pushed the engine's lookup gives the version pushed
  // exactly when the text is well formed and fits; and a well-formed one the
  // editor let through does fit.
  lemma EngineHolds(sync: DocumentSync, uri: string, maxDocBytes: nat, budget: nat)
    requires sync.Valid() && uri in sync.pushed && PlainIds(sync.sent) && VersionsTell(sync.sent)
    requires NeverEvicts(sync.sent, maxDocBytes, budget)
    ensures var p := sync.pushed[uri];
      var held := HeldAfter(sync.sent)[p.place];
      var found := LruCache.Find(Overlay(sync.sent, maxDocBytes, budget), KeyOf(p.place));
      && (found.Some? && found.value.value.version == p.version <==> WellFormed(held.contents) && Fits(held, maxDocBytes))
      && (WellFormed(held.contents) && found.Some? ==> found.value.value == LruCache.Doc(Encode(held.contents), p.version))
      && (WellFormed(held.contents) && sync.maxBytes <= maxDocBytes ==> found.Some?)
  {
    var p := sync.pushed[uri];
    var held := HeldAfter(sync.sent)[p.place];
    var j := HeldFrom(sync.sent, p.place);
    assert sync.sent[j] in sync.sent;
    OverlayHolds(sync.sent, maxDocBytes, budget, p.place);
    if WellFormed(held.contents) {
      WellFormedArrives(sync.sent, p.place);
      CountIsLength(held.contents);
    } else if p.place in Gotten(sync.sent) {
      IllFormedMissed(sync.sent, p.place);
    }
    hide Encode, Counted, WellFormed, Overlay, NeverEvicts, VersionsTell, LruCache.Find, Gotten;
  }

  // What the engine holds instead of an ill-formed text is of another version.
  lemma IllFormedMissed(sent: seq<Notice>, place: Place)
    requires place in HeldAfter(sent) && !WellFormed(HeldAfter(sent)[place].contents) && place in Gotten(sent)
    requires VersionsTell(sent)
    ensures Gotten(sent)[place].version != HeldAfter(sent)[place].version
  {
    hide WellFormed;
    var i := GottenFrom(sent, place);
    var j := HeldFrom(sent, place);
    assert i <= j;
  }

  // A buffer with a lone surrogate is counted right, pushed and never held.
  lemma LoneSurrogateLost(place: Place, version: int, maxDocBytes: nat, budget: nat)
    ensures var text: seq<Unit> := [0xd800];
      var sent := [DidChange(place, text, version)];
      && Safe(text) && Counted(text) == 3
      && place in HeldAfter(sent) && HeldAfter(sent)[place].version == version && Overlay(sent, maxDocBytes, budget) == []
  {
    var text: seq<Unit> := [0xd800];
    var sent := [DidChange(place, text, version)];
    assert IsHigh(text[0]);
    assert sent[..0] == [] && text[1..] == [] && !IsPaired(text);
    assert HeldAfter(sent) == HeldAfter([])[place := Held(text, version)];
    assert Overlay([], maxDocBytes, budget) == [];
  }

  // With the two programs' own caps no well-formed buffer is missing.
  lemma DefaultsAgree(sync: DocumentSync, uri: string)
    requires sync.Valid() && uri in sync.pushed && PlainIds(sync.sent) && sync.maxBytes == MAX_BUFFER_BYTES
    requires VersionsTell(sync.sent) && NeverEvicts(sync.sent, LruCache.MAX_DOC_BYTES, LruCache.DOC_OVERLAY_BUDGET)
    ensures
      var p := sync.pushed[uri];
      var found := LruCache.Find(Overlay(sync.sent, LruCache.MAX_DOC_BYTES, LruCache.DOC_OVERLAY_BUDGET), KeyOf(p.place));
      found.Some? && found.value.value.version == p.version <==> WellFormed(HeldAfter(sync.sent)[p.place].contents)
    ensures LruCache.MAX_DOC_BYTES == 8 * 1024 * 1024 && LruCache.DOC_OVERLAY_BUDGET == 64 * 1024 * 1024
  {
    EngineHolds(sync, uri, LruCache.MAX_DOC_BYTES, LruCache.DOC_OVERLAY_BUDGET);
  }
}
