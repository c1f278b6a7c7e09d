/** One watermark of a poller (spans or evaluation results): what a poll trims,
    and why no row is lost or broadcast twice however polls and arrivals mix. */
module DeltaChannel {
  import opened LiveDeltas

  /** The watermark and the keys already delivered at exactly that millisecond. */
  datatype Channel = Channel(head: int, boundary: set<string>)

  predicate IsFresh(ch: Channel, r: Row) {
    r.ms > ch.head || r.key !in ch.boundary
  }

  /** The rows of a page that are not replays of the boundary, in page order. */
  function Fresh(ch: Channel, page: seq<Row>): seq<Row> {
    if page == [] then []
    else (if IsFresh(ch, page[0]) then [page[0]] else []) + Fresh(ch, page[1..])
  }

  function KeysAt(page: seq<Row>, ms: int): set<string> {
    set i | 0 <= i < |page| && page[i].ms == ms :: page[i].key
  }

  /** The channel after a fetch that moved the watermark to `head`: the boundary
      is kept only while the watermark stands still. */
  function TrimmedTo(ch: Channel, page: seq<Row>, head: int): Channel {
    Channel(head, (if head == ch.head then ch.boundary else {}) + KeysAt(page, head))
  }

  /** The channel after a page read from its head. */
  function Trimmed(ch: Channel, page: seq<Row>): Channel {
    TrimmedTo(ch, page, Advanced(page, ch.head))
  }

  /** A channel with everything it has seen: the visible rows in the order they
      became visible, the cursor it started from, and what it has broadcast. */
  datatype History = History(log: seq<Row>, start: int, ch: Channel, sent: seq<Row>)

  ghost predicate SentOnce(sent: seq<Row>) {
    forall i, j :: 0 <= i < j < |sent| ==> sent[i].key != sent[j].key || sent[i].ms != sent[j].ms
  }

  ghost predicate SentFromLog(h: History) {
    forall i :: 0 <= i < |h.sent| ==> h.sent[i] in h.log && h.start <= h.sent[i].ms <= h.ch.head
  }

  ghost predicate SentAt(sent: seq<Row>, key: string, ms: int) {
    exists i :: 0 <= i < |sent| && sent[i].key == key && sent[i].ms == ms
  }

  ghost predicate BoundaryIsSent(h: History) {
    forall key :: key in h.ch.boundary <==> SentAt(h.sent, key, h.ch.head)
  }

  ghost predicate NoGap(h: History) {
    forall i :: 0 <= i < |h.log| && h.start <= h.log[i].ms < h.ch.head ==> Covers(h.sent, h.log[i])
  }

  /** The head never runs past the newest visible row. */
  ghost predicate HeadIsVisible(h: History) {
    h.ch.head == h.start || exists i :: 0 <= i < |h.log| && h.log[i].ms == h.ch.head
  }

  ghost predicate Sound(h: History) {
    && SortedByMs(h.log)
    && h.start <= h.ch.head
    && SentOnce(h.sent)
    && SentFromLog(h)
    && BoundaryIsSent(h)
    && NoGap(h)
    && HeadIsVisible(h)
  }

  function Opened(log: seq<Row>, start: int): History {
    History(log, start, Channel(start, {}), [])
  }

  function Landed(h: History, r: Row): History {
    h.(log := h.log + [r])
  }

  function Polled(h: History, page: seq<Row>): History {
    h.(ch := Trimmed(h.ch, page), sent := h.sent + Fresh(h.ch, page))
  }

  lemma OpenedIsSound(log: seq<Row>, start: int)
    requires SortedByMs(log)
    ensures Sound(Opened(log, start))
  {
  }

  /** An arrival at or above the newest visible millisecond. */
  lemma LandedIsSound(h: History, r: Row)
    requires Sound(h)
    requires forall i :: 0 <= i < |h.log| ==> h.log[i].ms <= r.ms
    ensures Sound(Landed(h, r))
  {
    var h' := Landed(h, r);
    if h.ch.head != h.start {
      var i :| 0 <= i < |h.log| && h.log[i].ms == h.ch.head;
      assert h'.log[i].ms == h.ch.head;
    }
    forall i | 0 <= i < |h'.log| && h.start <= h'.log[i].ms < h.ch.head ensures Covers(h.sent, h'.log[i]) {
      assert i < |h.log|;
      assert h'.log[i] == h.log[i];
    }
  }

  /** An arrival out of order leaves a gap exactly when it falls between the start
      and the head and nothing broadcast stands for it: the arrival order is
      needed, not only convenient. */
  lemma LateLandingLeavesGapIff(h: History, r: Row)
    requires Sound(h)
    ensures NoGap(Landed(h, r)) <==> (r.ms < h.start || r.ms >= h.ch.head || Covers(h.sent, r))
  {
    var h' := Landed(h, r);
    assert h'.log[|h.log|] == r;
    forall i | 0 <= i < |h.log| ensures h'.log[i] == h.log[i] {
    }
  }

  lemma {:induction false} FreshMembers(ch: Channel, page: seq<Row>)
    ensures forall i :: 0 <= i < |Fresh(ch, page)| ==>
              IsFresh(ch, Fresh(ch, page)[i]) && exists j :: 0 <= j < |page| && page[j] == Fresh(ch, page)[i]
  {
    if page != [] {
      var rest := Fresh(ch, page[1..]);
      FreshMembers(ch, page[1..]);
      forall i | 0 <= i < |Fresh(ch, page)|
        ensures IsFresh(ch, Fresh(ch, page)[i]) && exists j :: 0 <= j < |page| && page[j] == Fresh(ch, page)[i]
      {
        var r := Fresh(ch, page)[i];
        if IsFresh(ch, page[0]) && i == 0 {
          assert page[0] == r;
        } else {
          var k := if IsFresh(ch, page[0]) then i - 1 else i;
          assert rest[k] == r;
          var j :| 0 <= j < |page[1..]| && page[1..][j] == r;
          assert page[j + 1] == r;
        }
      }
    }
  }

  lemma {:induction false} FreshKeeps(ch: Channel, page: seq<Row>, j: nat)
    requires j < |page| && IsFresh(ch, page[j])
    ensures exists i :: 0 <= i < |Fresh(ch, page)| && Fresh(ch, page)[i] == page[j]
  {
    if j == 0 {
      assert Fresh(ch, page)[0] == page[0];
    } else {
      FreshKeeps(ch, page[1..], j - 1);
      var rest := Fresh(ch, page[1..]);
      var i :| 0 <= i < |rest| && rest[i] == page[1..][j - 1];
      assert Fresh(ch, page)[if IsFresh(ch, page[0]) then i + 1 else i] == page[j];
    }
  }

  lemma {:induction false} FreshDistinct(ch: Channel, page: seq<Row>)
    requires DistinctKeys(page)
    ensures DistinctKeys(Fresh(ch, page))
  {
    if page != [] {
      FreshDistinct(ch, page[1..]);
      FreshMembers(ch, page[1..]);
      var rest := Fresh(ch, page[1..]);
      forall i | 0 <= i < |rest| ensures rest[i].key != page[0].key {
        var j :| 0 <= j < |page[1..]| && page[1..][j] == rest[i];
        assert page[j + 1] == rest[i];
      }
    }
  }

  /** `page` answers a read of the head made when the first `n` rows were visible. */
  ghost predicate ReadAt(h: History, n: nat, cap: nat, page: seq<Row>) {
    n <= |h.log| && IsPage(h.log[..n], h.ch.head, cap, page)
  }

  lemma PolledSendsOnce(h: History, n: nat, cap: nat, page: seq<Row>)
    requires Sound(h) && ReadAt(h, n, cap, page)
    ensures SentOnce(Polled(h, page).sent)
  {
    var news := Fresh(h.ch, page);
    FreshDistinct(h.ch, page);
    forall i, j | 0 <= i < |h.sent| && 0 <= j < |news|
      ensures h.sent[i].key != news[j].key || h.sent[i].ms != news[j].ms
    {
      var k := NewsFromPage(h.ch, page, j);
      assert page[k].ms >= h.ch.head;
      SentBelowHead(h, news[j].key, news[j].ms);
      assert !SentAt(h.sent, news[j].key, news[j].ms);
    }
  }

  /** A row of the page was visible to the read, at or after the head. */
  lemma ReadFromLog(h: History, n: nat, cap: nat, page: seq<Row>, i: nat) returns (k: nat)
    requires ReadAt(h, n, cap, page) && i < |page|
    ensures k < n && h.log[k] == page[i] && page[i].ms >= h.ch.head
  {
    assert page[i] in h.log[..n];
    k :| 0 <= k < n && h.log[..n][k] == page[i];
  }

  /** What a poll adds to the broadcast comes from its page. */
  lemma NewsFromPage(ch: Channel, page: seq<Row>, i: nat) returns (j: nat)
    requires i < |Fresh(ch, page)|
    ensures j < |page| && page[j] == Fresh(ch, page)[i] && IsFresh(ch, page[j])
  {
    FreshMembers(ch, page);
    j :| 0 <= j < |page| && page[j] == Fresh(ch, page)[i];
  }

  lemma PolledSendsFromLog(h: History, n: nat, cap: nat, page: seq<Row>)
    requires SentFromLog(h) && h.start <= h.ch.head && ReadAt(h, n, cap, page)
    ensures SentFromLog(Polled(h, page))
  {
    var h' := Polled(h, page);
    forall i | 0 <= i < |h'.sent| ensures h'.sent[i] in h.log && h.start <= h'.sent[i].ms <= h'.ch.head {
      PolledRowFromLog(h, n, cap, page, i);
    }
  }

  lemma PolledRowFromLog(h: History, n: nat, cap: nat, page: seq<Row>, i: nat)
    requires i < |h.sent| ==> h.sent[i] in h.log && h.start <= h.sent[i].ms <= h.ch.head
    requires h.start <= h.ch.head && ReadAt(h, n, cap, page) && i < |Polled(h, page).sent|
    ensures Polled(h, page).sent[i] in h.log && h.start <= Polled(h, page).sent[i].ms <= Polled(h, page).ch.head
  {
    if i < |h.sent| {
      assert h.ch.head <= Polled(h, page).ch.head by { AdvancedIsNewest(page, h.ch.head); }
    } else {
      NewsFromLog(h, n, cap, page, i - |h.sent|);
    }
  }

  lemma NewsFromLog(h: History, n: nat, cap: nat, page: seq<Row>, i: nat)
    requires ReadAt(h, n, cap, page) && i < |Fresh(h.ch, page)|
    ensures Fresh(h.ch, page)[i] in h.log && h.ch.head <= Fresh(h.ch, page)[i].ms <= Advanced(page, h.ch.head)
  {
    AdvancedIsNewest(page, h.ch.head);
    var j := NewsFromPage(h.ch, page, i);
    var k := ReadFromLog(h, n, cap, page, j);
  }

  lemma PolledHeadIsVisible(h: History, n: nat, cap: nat, page: seq<Row>)
    requires HeadIsVisible(h) && h.start <= h.ch.head && ReadAt(h, n, cap, page)
    ensures HeadIsVisible(Polled(h, page)) && Polled(h, page).ch.head >= h.ch.head
  {
    AdvancedIsNewest(page, h.ch.head);
    if Advanced(page, h.ch.head) != h.ch.head {
      var k := ReadFromLog(h, n, cap, page, |page| - 1);
    }
  }

  lemma SentAtGrows(sent: seq<Row>, more: seq<Row>, key: string, ms: int)
    ensures SentAt(sent + more, key, ms) <==> SentAt(sent, key, ms) || SentAt(more, key, ms)
  {
    if SentAt(sent, key, ms) {
      var i :| 0 <= i < |sent| && sent[i].key == key && sent[i].ms == ms;
      assert (sent + more)[i] == sent[i];
    }
    if SentAt(more, key, ms) {
      var i :| 0 <= i < |more| && more[i].key == key && more[i].ms == ms;
      assert (sent + more)[|sent| + i] == more[i];
    }
  }

  lemma PolledBoundary(h: History, n: nat, cap: nat, page: seq<Row>)
    requires Sound(h) && ReadAt(h, n, cap, page)
    ensures BoundaryIsSent(Polled(h, page))
  {
    var h' := Polled(h, page);
    forall key ensures key in h'.ch.boundary <==> SentAt(h'.sent, key, h'.ch.head) {
      SentAtGrows(h.sent, Fresh(h.ch, page), key, h'.ch.head);
      NewsAtHead(h, n, cap, page, key, h'.ch.head);
      SentBelowHead(h, key, h'.ch.head);
      AdvancedIsNewest(page, h.ch.head);
    }
  }

  /** A key is read at `head` exactly when it is broadcast there now, or was before. */
  lemma NewsAtHead(h: History, n: nat, cap: nat, page: seq<Row>, key: string, head: int)
    requires ReadAt(h, n, cap, page) && head >= h.ch.head
    ensures SentAt(Fresh(h.ch, page), key, head) ==> key in KeysAt(page, head)
    ensures key in KeysAt(page, head) ==>
              SentAt(Fresh(h.ch, page), key, head) || (head == h.ch.head && key in h.ch.boundary)
  {
    if SentAt(Fresh(h.ch, page), key, head) {
      var i :| 0 <= i < |Fresh(h.ch, page)| && Fresh(h.ch, page)[i].key == key && Fresh(h.ch, page)[i].ms == head;
      var j := NewsFromPage(h.ch, page, i);
    }
    if key in KeysAt(page, head) {
      var j :| 0 <= j < |page| && page[j].ms == head && page[j].key == key;
      if IsFresh(h.ch, page[j]) {
        FreshKeeps(h.ch, page, j);
      }
    }
  }

  /** Above its head a channel has sent nothing. */
  lemma SentBelowHead(h: History, key: string, head: int)
    requires Sound(h) && head >= h.ch.head
    ensures SentAt(h.sent, key, head) <==> head == h.ch.head && key in h.ch.boundary
  {
  }

  lemma CoversGrows(sent: seq<Row>, more: seq<Row>, r: Row)
    ensures Covers(sent, r) || Covers(more, r) ==> Covers(sent + more, r)
  {
    if Covers(sent, r) {
      var i :| 0 <= i < |sent| && sent[i].key == r.key && sent[i].ms <= r.ms;
      assert (sent + more)[i] == sent[i];
    } else if Covers(more, r) {
      var i :| 0 <= i < |more| && more[i].key == r.key && more[i].ms <= r.ms;
      assert (sent + more)[|sent| + i] == more[i];
    }
  }

  /** A row that a page covers has been broadcast once the page is processed:
      it is new, or it replays a delivered boundary row. */
  lemma PageIsSent(h: History, n: nat, cap: nat, page: seq<Row>, r: Row)
    requires Sound(h) && ReadAt(h, n, cap, page) && Covers(page, r)
    ensures Covers(Polled(h, page).sent, r)
  {
    var news := Fresh(h.ch, page);
    CoversGrows(h.sent, news, r);
    var j :| 0 <= j < |page| && page[j].key == r.key && page[j].ms <= r.ms;
    if IsFresh(h.ch, page[j]) {
      FreshKeeps(h.ch, page, j);
      var i :| 0 <= i < |news| && news[i] == page[j];
      assert Covers(news, r);
    } else {
      assert h.ch.head <= page[j].ms;
      assert SentAt(h.sent, r.key, h.ch.head);
      var i :| 0 <= i < |h.sent| && h.sent[i].key == r.key && h.sent[i].ms == h.ch.head;
      assert Covers(h.sent, r);
    }
  }

  lemma PolledNoGap(h: History, n: nat, cap: nat, page: seq<Row>)
    requires Sound(h) && ReadAt(h, n, cap, page)
    ensures NoGap(Polled(h, page))
  {
    var h' := Polled(h, page);
    forall i | 0 <= i < |h.log| && h.start <= h.log[i].ms < h'.ch.head ensures Covers(h'.sent, h.log[i]) {
      if h.log[i].ms < h.ch.head {
        CoversGrows(h.sent, Fresh(h.ch, page), h.log[i]);
      } else {
        BelowNewHead(h, n, cap, page, i);
        PageIsSent(h, n, cap, page, h.log[i]);
      }
    }
  }

  /** A row from the old head to below the new one was visible to the read. */
  lemma BelowNewHead(h: History, n: nat, cap: nat, page: seq<Row>, i: nat)
    requires SortedByMs(h.log) && ReadAt(h, n, cap, page)
    requires i < |h.log| && h.ch.head <= h.log[i].ms < Advanced(page, h.ch.head)
    ensures Covers(page, h.log[i])
  {
    var k := ReadFromLog(h, n, cap, page, |page| - 1);
    assert h.log[..n][i] == h.log[i];
    NothingBelowIsSkipped(h.log[..n], h.ch.head, cap, page, h.log[i]);
  }

  /** One poll keeps the channel sound, whenever its read saw the log. */
  lemma PolledIsSound(h: History, n: nat, cap: nat, page: seq<Row>)
    requires Sound(h) && ReadAt(h, n, cap, page)
    ensures Sound(Polled(h, page))
    ensures Polled(h, page).ch.head >= h.ch.head
  {
    PolledHeadIsVisible(h, n, cap, page);
    PolledSendsOnce(h, n, cap, page);
    PolledSendsFromLog(h, n, cap, page);
    PolledBoundary(h, n, cap, page);
    PolledNoGap(h, n, cap, page);
  }

  /** No gaps, no duplicates: with one row a key, a sound channel has broadcast
      exactly the rows from its start to strictly below its head, plus those of
      the boundary set at its head. */
  lemma SentExactly(h: History, r: Row)
    requires Sound(h) && DistinctKeys(h.log)
    ensures r in h.sent <==>
              r in h.log && h.start <= r.ms &&
              (r.ms < h.ch.head || (r.ms == h.ch.head && r.key in h.ch.boundary))
  {
    if r in h.sent {
      var i :| 0 <= i < |h.sent| && h.sent[i] == r;
      if r.ms == h.ch.head {
        assert SentAt(h.sent, r.key, h.ch.head);
      }
    }
    if r in h.log && h.start <= r.ms < h.ch.head {
      var k :| 0 <= k < |h.log| && h.log[k] == r;
      var i :| 0 <= i < |h.sent| && h.sent[i].key == r.key && h.sent[i].ms <= r.ms;
      SameKeySameRow(h.log, h.sent[i], r);
    }
    if r in h.log && r.ms == h.ch.head && r.key in h.ch.boundary {
      var i :| 0 <= i < |h.sent| && h.sent[i].key == r.key && h.sent[i].ms == h.ch.head;
      SameKeySameRow(h.log, h.sent[i], r);
    }
  }

  /** A page with nothing unread leaves the channel as it was and sends nothing. */
  lemma {:induction false} ReplayIsSilent(ch: Channel, page: seq<Row>)
    requires forall i :: 0 <= i < |page| ==> page[i].ms == ch.head && page[i].key in ch.boundary
    ensures Fresh(ch, page) == [] && Trimmed(ch, page) == ch
  {
    if page != [] {
      ReplayIsSilent(ch, page[1..]);
    }
    assert KeysAt(page, ch.head) <= ch.boundary;
  }
}
