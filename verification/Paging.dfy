/** The paged search iterator (client.go): its control of section 2 of RFC 2696, and
    that it yields exactly the entries of the pages a server answers with. */
module Paging {
  import opened BerTypes
  import opened BerIdentifier
  import opened BerLength
  import opened BerTree
  import opened BerInteger
  import opened BerPacket
  import opened BerCursor

  // ------------------------------------------------------------------ the control

  datatype Control = Control(kind: bytes, value: bytes)

  function Ascii(text: string): bytes
    requires forall k :: 0 <= k < |text| ==> text[k] < 128 as char
  {
    seq(|text|, k requires 0 <= k < |text| => text[k] as int)
  }

  const PAGED_RESULTS: bytes := Ascii("1.2.840.113556.1.4.319")

  // newPagedResultsControl, for a cookie that fits
  function PagedPacket(size: uint32, cookie: bytes): Packet
  {
    ConstructedPacket(SEQUENCE, [PrimitivePacket(INTEGER, IntegerContents(size)), PrimitivePacket(OCTET_STRING, cookie)])
  }

  function PagedControl(size: uint32, cookie: bytes): Control
    requires Fits(PagedPacket(size, cookie))
  {
    Control(PAGED_RESULTS, EncodePacket(PagedPacket(size, cookie)))
  }

  // The value of the control in a response.
  function CookieOf(value: bytes, limits: Limits): Result<bytes>
  {
    if !limits.Valid() then Err(BadLimits)
    else if |value| > limits.maxFrameBytes then Err(LimitExceeded(FrameBytes))
    else
      match Enter(Cursor(value, 0, 0), SEQUENCE, limits)
      case Err(e) => Err(e)
      case Ok((inner, tail)) =>
        match ReadInteger(inner, INTEGER, limits)
        case Err(e) => Err(e)
        case Ok((_, c1)) =>
          match ReadPrimitive(c1, OCTET_STRING, limits)
          case Err(e) => Err(e)
          case Ok((cookie, c2)) => if c2.rest != [] || tail != [] then Err(TrailingData) else Ok(cookie)
  }

  // pagedResultsCookie: the first control of the kind decides.
  function Cookie(controls: seq<Control>, limits: Limits): Result<bytes>
  {
    if controls == [] then Err(BadValue)
    else if controls[0].kind == PAGED_RESULTS then CookieOf(controls[0].value, limits)
    else Cookie(controls[1..], limits)
  }

  method PagedResultsCookie(controls: seq<Control>, limits: Limits) returns (r: Result<bytes>)
    ensures r == Cookie(controls, limits)
  {
    for i := 0 to |controls|
      invariant Cookie(controls, limits) == Cookie(controls[i..], limits)
    {
      assert controls[i..][1..] == controls[i + 1..];
      if controls[i].kind == PAGED_RESULTS {
        return CookieOf(controls[i].value, limits);
      }
    }
    return Err(BadValue);
  }

  // Controls of other kinds are passed over.
  lemma {:induction false} OthersPassed(before: seq<Control>, controls: seq<Control>, limits: Limits)
    requires forall k :: 0 <= k < |before| ==> before[k].kind != PAGED_RESULTS
    ensures Cookie(before + controls, limits) == Cookie(controls, limits)
  {
    hide CookieOf;
    if before == [] {
      assert [] + controls == controls;
    } else {
      OthersPassed(before[1..], controls, limits);
      assert (before + controls)[1..] == before[1..] + controls;
    }
  }

  /** A cookie put into a control comes out of it again, wherever it stands behind
      controls of other kinds and whatever follows it; without such a control there is
      no cookie. */
  lemma CookieRoundTrip(size: uint32, cookie: bytes, before: seq<Control>, rest: seq<Control>, limits: Limits)
    requires limits.Valid() && limits.maxElements >= 3 && limits.maxIntegerBytes >= 5
    requires Fits(PagedPacket(size, cookie)) && PacketSize(PagedPacket(size, cookie)) <= limits.maxFrameBytes
    requires forall k :: 0 <= k < |before| ==> before[k].kind != PAGED_RESULTS
    ensures Cookie(before + ([PagedControl(size, cookie)] + rest), limits) == Ok(cookie)
    ensures Cookie(before, limits).Err?
  {
    hide CookieOf, EncodePacket;
    CookieBack(size, cookie, limits);
    OthersPassed(before, [PagedControl(size, cookie)] + rest, limits);
    OthersPassed(before, [], limits);
    assert before + [] == before;
  }

  // The value of a control that asks for size entries after cookie, octet by octet
  // (section 2 of RFC 2696).
  lemma ControlOctets(size: uint32, cookie: bytes)
    requires Fits(PagedPacket(size, cookie))
    ensures |IntegerContents(size)| <= MAX_INT && |cookie| <= MAX_INT
    ensures var inner := [0x02] + EncodeLength(|IntegerContents(size)|) + IntegerContents(size) + ([0x04] + EncodeLength(|cookie|) + cookie);
            |inner| <= MAX_INT && PagedControl(size, cookie).value == [0x30] + EncodeLength(|inner|) + inner
  {
    hide EncodePacket, EncodeLength, PacketSize, IntegerContents;
    PagedLayout(size, cookie);
    assert EncodeIdentifier(INTEGER) == [0x02] && EncodeIdentifier(OCTET_STRING) == [0x04] && EncodeIdentifier(SEQUENCE) == [0x30];
  }

  lemma CookieBack(size: uint32, cookie: bytes, limits: Limits)
    requires limits.Valid() && limits.maxElements >= 3 && limits.maxIntegerBytes >= 5
    requires Fits(PagedPacket(size, cookie)) && PacketSize(PagedPacket(size, cookie)) <= limits.maxFrameBytes
    ensures CookieOf(EncodePacket(PagedPacket(size, cookie)), limits) == Ok(cookie)
  {
    hide Wrap, IntegerContents, ParseInteger, EncodePacket, PacketSize, PagedPacket, CookieOf;
    PagedLayout(size, cookie);
    SizeReads(size, limits);
    CookieComplete(EncodePacket(PagedPacket(size, cookie)), IntegerContents(size), cookie, limits);
  }

  // A control value with this size and cookie and nothing else, inside the limits.
  ghost predicate IsCookieValue(value: bytes, size: bytes, cookie: bytes, limits: Limits)
  {
    && limits.Valid() && |value| <= limits.maxFrameBytes && limits.maxElements >= 3
    && |size| <= MAX_INT && |cookie| <= MAX_INT && |Wrap(INTEGER, size) + Wrap(OCTET_STRING, cookie)| <= MAX_INT
    && ParseInteger(size, limits.maxIntegerBytes, INT64).Ok?
    && value == Wrap(SEQUENCE, Wrap(INTEGER, size) + Wrap(OCTET_STRING, cookie))
  }

  lemma CookieSound(value: bytes, limits: Limits) returns (size: bytes)
    requires CookieOf(value, limits).Ok?
    ensures IsCookieValue(value, size, CookieOf(value, limits).value, limits)
  {
    hide Wrap, ParseInteger, Enter, ReadPrimitive;
    var c := Cursor(value, 0, 0);
    EnterSound(c, SEQUENCE, limits);
    var (inner, tail) := Enter(c, SEQUENCE, limits).value;
    ReadPrimitiveSound(inner, INTEGER, limits);
    var (contents, c1) := ReadPrimitive(inner, INTEGER, limits).value;
    size := contents;
    ReadPrimitiveSound(c1, OCTET_STRING, limits);
    var (cookie, c2) := ReadPrimitive(c1, OCTET_STRING, limits).value;
    assert Wrap(OCTET_STRING, cookie) + [] == Wrap(OCTET_STRING, cookie);
    assert Wrap(SEQUENCE, inner.rest) + [] == Wrap(SEQUENCE, inner.rest);
  }

  lemma CookieComplete(value: bytes, size: bytes, cookie: bytes, limits: Limits)
    requires IsCookieValue(value, size, cookie, limits)
    ensures CookieOf(value, limits) == Ok(cookie)
  {
    hide Wrap, ParseInteger, ReadPrimitive, Enter;
    var inner := Wrap(INTEGER, size) + Wrap(OCTET_STRING, cookie);
    EnterBack(SEQUENCE, inner, [], 0, 0, limits);
    assert Wrap(SEQUENCE, inner) + [] == Wrap(SEQUENCE, inner);
    ReadPrimitiveBack(INTEGER, size, Wrap(OCTET_STRING, cookie), 1, 1, limits);
    ReadPrimitiveBack(OCTET_STRING, cookie, [], 1, 2, limits);
    assert Wrap(OCTET_STRING, cookie) + [] == Wrap(OCTET_STRING, cookie);
  }

  /** A control yields a cookie exactly if its value is a sequence of an integer and that
      cookie, with nothing behind either, inside the limits. */
  lemma CookieIff(value: bytes, cookie: bytes, limits: Limits)
    ensures CookieOf(value, limits) == Ok(cookie) <==> exists size :: IsCookieValue(value, size, cookie, limits)
  {
    hide CookieOf, IsCookieValue;
    if CookieOf(value, limits) == Ok(cookie) { var size := CookieSound(value, limits); }
    if size :| IsCookieValue(value, size, cookie, limits) { CookieComplete(value, size, cookie, limits); }
  }

  lemma PagedLayout(size: uint32, cookie: bytes)
    requires Fits(PagedPacket(size, cookie))
    ensures var contents := IntegerContents(size);
            && |contents| <= MAX_INT && |cookie| <= MAX_INT
            && |Wrap(INTEGER, contents) + Wrap(OCTET_STRING, cookie)| <= MAX_INT
            && EncodePacket(PagedPacket(size, cookie)) == Wrap(SEQUENCE, Wrap(INTEGER, contents) + Wrap(OCTET_STRING, cookie))
  {
    hide IntegerContents, Header;
    var a, b := PrimitivePacket(INTEGER, IntegerContents(size)), PrimitivePacket(OCTET_STRING, cookie);
    assert [a, b] == [a] + [b] && [b] == [b] + [];
    EncodeCons(a, [b]);
    EncodeCons(b, []);
    assert EncodePackets([b]) == EncodePacket(b) + [] == EncodePacket(b);
  }

  lemma SizeReads(size: uint32, limits: Limits)
    requires limits.maxIntegerBytes >= 5
    ensures ParseInteger(IntegerContents(size), limits.maxIntegerBytes, INT64) == Ok(size)
  {
    IntegerRoundTrip(size, limits.maxIntegerBytes, INT64);
    assert Pow256(4) == 256 * (256 * (256 * (256 * Pow256(0))));
    ContentsLength(size, 4);
  }

  lemma {:induction false} ContentsLength(v: nat, k: nat)
    requires v < 128 * Pow256(k)
    ensures |IntegerContents(v)| <= k + 1
    decreases k
  {
    if k > 0 { ContentsLength(v / 256, k - 1); }
  }

  // ----------------------------------------------------------------- a transcript

  datatype Reply =
    | EntryReply(entry: bytes)
    | ReferenceReply(uris: seq<bytes>)
    | DoneReply(success: bool, controls: seq<Control>)
    | BrokenReply                    // a response that fails to decode, or a failed read

  // What the server and the transport make of one search request: whether it could
  // be sent, what comes back before the end of the stream, and whether the stream
  // closes cleanly.
  datatype Page = Page(sent: bool, replies: seq<Reply>, closes: bool)

  datatype End = Stop | Fail | More(cookie: bytes)

  // What follows from a final response with nothing behind it.
  function AfterDone(success: bool, controls: seq<Control>, rest: seq<Reply>, closes: bool, paged: bool, limits: Limits): End
  {
    if !success || rest != [] || !closes then Fail
    else if !paged then Stop
    else
      match Cookie(controls, limits)
      case Err(_) => Fail
      case Ok(cookie) => if cookie == [] then Stop else More(cookie)
  }

  // The reference: the entries of one page up to its end, and what that end is.
  function PageEntries(replies: seq<Reply>): seq<bytes>
  {
    if replies == [] then []
    else
      match replies[0]
      case EntryReply(e) => [e] + PageEntries(replies[1..])
      case ReferenceReply(_) => PageEntries(replies[1..])
      case DoneReply(_, _) => []
      case BrokenReply => []
  }

  // The URIs of its references, likewise.
  function PageUris(replies: seq<Reply>): seq<bytes>
  {
    if replies == [] then []
    else
      match replies[0]
      case EntryReply(_) => PageUris(replies[1..])
      case ReferenceReply(uris) => uris + PageUris(replies[1..])
      case DoneReply(_, _) => []
      case BrokenReply => []
  }

  function PageEnd(replies: seq<Reply>, closes: bool, paged: bool, limits: Limits): End
  {
    if replies == [] then Fail
    else
      match replies[0]
      case EntryReply(_) => PageEnd(replies[1..], closes, paged, limits)
      case ReferenceReply(_) => PageEnd(replies[1..], closes, paged, limits)
      case DoneReply(success, controls) => AfterDone(success, controls, replies[1..], closes, paged, limits)
      case BrokenReply => Fail
  }

  // What the first reply contributes.
  lemma FirstReply(replies: seq<Reply>, closes: bool, paged: bool, limits: Limits)
    ensures replies == [] ==> PageEntries(replies) == [] && PageUris(replies) == [] && PageEnd(replies, closes, paged, limits) == Fail
    ensures replies != [] ==>
              var r, rest := replies[0], replies[1..];
              && (r.EntryReply? ==> PageEntries(replies) == [r.entry] + PageEntries(rest) && PageUris(replies) == PageUris(rest))
              && (r.ReferenceReply? ==> PageEntries(replies) == PageEntries(rest) && PageUris(replies) == r.uris + PageUris(rest))
              && (r.EntryReply? || r.ReferenceReply? ==> PageEnd(replies, closes, paged, limits) == PageEnd(rest, closes, paged, limits))
              && (r.DoneReply? || r.BrokenReply? ==> PageEntries(replies) == [] && PageUris(replies) == [])
              && (r.DoneReply? ==> PageEnd(replies, closes, paged, limits) == AfterDone(r.success, r.controls, rest, closes, paged, limits))
              && (r.BrokenReply? ==> PageEnd(replies, closes, paged, limits) == Fail)
  {
  }

  // All entries from page k on: page after page, until an error or an empty cookie.
  function AllEntries(pages: seq<Page>, k: nat, paged: bool, limits: Limits): seq<bytes>
    decreases |pages| - k
  {
    if k >= |pages| || !pages[k].sent then []
    else PageEntries(pages[k].replies)
         + if PageEnd(pages[k].replies, pages[k].closes, paged, limits).More? then AllEntries(pages, k + 1, paged, limits) else []
  }

  function AllUris(pages: seq<Page>, k: nat, paged: bool, limits: Limits): seq<bytes>
    decreases |pages| - k
  {
    if k >= |pages| || !pages[k].sent then []
    else PageUris(pages[k].replies)
         + if PageEnd(pages[k].replies, pages[k].closes, paged, limits).More? then AllUris(pages, k + 1, paged, limits) else []
  }

  // How the search ends from page k on: with the last page reached, or with one that
  // could not be asked for.
  function SearchEnd(pages: seq<Page>, k: nat, paged: bool, limits: Limits): (e: End)
    ensures !e.More?
    decreases |pages| - k
  {
    if k >= |pages| || !pages[k].sent then Fail
    else
      match PageEnd(pages[k].replies, pages[k].closes, paged, limits)
      case More(_) => SearchEnd(pages, k + 1, paged, limits)
      case Stop => Stop
      case Fail => Fail
  }

  // ------------------------------------------------------ what those ends mean

  predicate IsRow(r: Reply) { r.EntryReply? || r.ReferenceReply? }

  // Entries and references, then one successful final response and nothing more, on
  // a stream that closes cleanly.
  ghost predicate Complete(p: Page)
  {
    && p.sent && p.closes && p.replies != []
    && (forall k :: 0 <= k < |p.replies| - 1 ==> IsRow(p.replies[k]))
    && p.replies[|p.replies| - 1].DoneReply? && p.replies[|p.replies| - 1].success
  }

  function FinalControls(p: Page): seq<Control>
    requires p.replies != [] && p.replies[|p.replies| - 1].DoneReply?
  {
    p.replies[|p.replies| - 1].controls
  }

  /** A page fails exactly if it is not complete, or if the search is paged and no
      cookie can be read from it; otherwise the search stops there exactly if it is not
      paged or the cookie is empty, and goes on with exactly that cookie if not. */
  lemma {:induction false} PageEnds(replies: seq<Reply>, closes: bool, paged: bool, limits: Limits)
    ensures var p, e := Page(true, replies, closes), PageEnd(replies, closes, paged, limits);
            if !Complete(p) then e == Fail
            else if !paged then e == Stop
            else var c := Cookie(FinalControls(p), limits);
                 if c.Err? then e == Fail else if c.value == [] then e == Stop else e == More(c.value)
  {
    hide Cookie;
    if replies != [] && IsRow(replies[0]) {
      PageEnds(replies[1..], closes, paged, limits);
      var p, q := Page(true, replies, closes), Page(true, replies[1..], closes);
      assert Complete(p) <==> Complete(q) by {
        if Complete(q) {
          forall k | 0 <= k < |replies| - 1 ensures IsRow(replies[k]) { if k > 0 { assert q.replies[k - 1] == replies[k]; } }
        }
        if Complete(p) {
          assert |replies| > 1;
          forall k | 0 <= k < |q.replies| - 1 ensures IsRow(q.replies[k]) { assert q.replies[k] == replies[k + 1]; }
        }
      }
    }
  }

  // The entries among the replies of a page are those before its first reply that is
  // neither an entry nor a reference, in order.
  function RowEntries(rows: seq<Reply>): seq<bytes>
  {
    if rows == [] then []
    else RowEntries(rows[..|rows| - 1]) + if rows[|rows| - 1].EntryReply? then [rows[|rows| - 1].entry] else []
  }

  lemma Joins(a: seq<bytes>, b: seq<bytes>, c: seq<bytes>)
    ensures (a + b) + c == a + (b + c)
  {
  }

  lemma {:induction false} RowFront(r: Reply, rows: seq<Reply>)
    ensures RowEntries([r] + rows) == (if r.EntryReply? then [r.entry] else []) + RowEntries(rows)
    decreases |rows|
  {
    if rows == [] {
      assert [r] + rows == [r] && [r][..0] == [];
    } else {
      var n := |rows| - 1;
      RowFront(r, rows[..n]);
      var all := [r] + rows;
      var first, last := if r.EntryReply? then [r.entry] else [], if rows[n].EntryReply? then [rows[n].entry] else [];
      assert all[..|rows|] == [r] + rows[..n] && all[|rows|] == rows[n];
      assert RowEntries(all) == RowEntries([r] + rows[..n]) + last;
      hide RowEntries;
      Joins(first, RowEntries(rows[..n]), last);
    }
  }

  // The URIs of the references among them, likewise.
  function RowUris(rows: seq<Reply>): seq<bytes>
  {
    if rows == [] then []
    else RowUris(rows[..|rows| - 1]) + if rows[|rows| - 1].ReferenceReply? then rows[|rows| - 1].uris else []
  }

  lemma {:induction false} UriFront(r: Reply, rows: seq<Reply>)
    ensures RowUris([r] + rows) == (if r.ReferenceReply? then r.uris else []) + RowUris(rows)
    decreases |rows|
  {
    if rows == [] {
      assert [r] + rows == [r] && [r][..0] == [];
    } else {
      var n := |rows| - 1;
      UriFront(r, rows[..n]);
      var all := [r] + rows;
      var first, last := if r.ReferenceReply? then r.uris else [], if rows[n].ReferenceReply? then rows[n].uris else [];
      assert all[..|rows|] == [r] + rows[..n] && all[|rows|] == rows[n];
      assert RowUris(all) == RowUris([r] + rows[..n]) + last;
      hide RowUris;
      Joins(first, RowUris(rows[..n]), last);
    }
  }

  lemma {:induction false} PageRows(replies: seq<Reply>, n: nat)
    requires n <= |replies| && (forall k :: 0 <= k < n ==> IsRow(replies[k])) && (n < |replies| ==> !IsRow(replies[n]))
    ensures PageEntries(replies) == RowEntries(replies[..n]) && PageUris(replies) == RowUris(replies[..n])
  {
    if n > 0 {
      PageRows(replies[1..], n - 1);
      RowFront(replies[0], replies[1..n]);
      UriFront(replies[0], replies[1..n]);
      assert replies[..n] == [replies[0]] + replies[1..n] && replies[1..][..n - 1] == replies[1..n];
    }
  }

  // The page that a search goes on from.
  ghost predicate GoesOn(p: Page, limits: Limits)
  {
    Complete(p) && Cookie(FinalControls(p), limits).Ok? && Cookie(FinalControls(p), limits).value != []
  }

  // The page that a search stops with.
  ghost predicate StopsWith(p: Page, paged: bool, limits: Limits)
  {
    Complete(p) && (paged ==> Cookie(FinalControls(p), limits) == Ok([]))
  }

  /** A search ends without an error exactly if some page is one to stop with and every
      page before it one to go on from. */
  lemma {:induction false} EndsWell(pages: seq<Page>, k: nat, paged: bool, limits: Limits)
    ensures SearchEnd(pages, k, paged, limits) == Stop <==>
              exists n :: k <= n < |pages| && StopsWith(pages[n], paged, limits) && forall j :: k <= j < n ==> paged && GoesOn(pages[j], limits)
    decreases |pages| - k
  {
    hide Cookie, Complete, PageEnd;
    if k < |pages| {
      var p := pages[k];
      PageEnds(p.replies, p.closes, paged, limits);
      assert p.sent ==> Page(true, p.replies, p.closes) == p;
      EndsWell(pages, k + 1, paged, limits);
      UnsentIncomplete(p);
    }
  }

  // The entries and URIs of the pages k to n - 1, one page after the other.
  function EntriesOf(pages: seq<Page>, k: nat, n: nat): seq<bytes>
    requires k <= n <= |pages|
  {
    if k == n then [] else EntriesOf(pages, k, n - 1) + PageEntries(pages[n - 1].replies)
  }

  function UrisOf(pages: seq<Page>, k: nat, n: nat): seq<bytes>
    requires k <= n <= |pages|
  {
    if k == n then [] else UrisOf(pages, k, n - 1) + PageUris(pages[n - 1].replies)
  }

  lemma {:induction false} PagesFront(pages: seq<Page>, k: nat, n: nat)
    requires k < n <= |pages|
    ensures EntriesOf(pages, k, n) == PageEntries(pages[k].replies) + EntriesOf(pages, k + 1, n)
    ensures UrisOf(pages, k, n) == PageUris(pages[k].replies) + UrisOf(pages, k + 1, n)
    decreases n - k
  {
    hide PageEntries, PageUris;
    if n > k + 1 {
      PagesFront(pages, k, n - 1);
      assert EntriesOf(pages, k + 1, n) == EntriesOf(pages, k + 1, n - 1) + PageEntries(pages[n - 1].replies);
      assert UrisOf(pages, k + 1, n) == UrisOf(pages, k + 1, n - 1) + PageUris(pages[n - 1].replies);
    } else {
      assert EntriesOf(pages, k, k) == [] && EntriesOf(pages, n, n) == [] && UrisOf(pages, k, k) == [] && UrisOf(pages, n, n) == [];
    }
  }

  // What one page adds.
  lemma PageAdds(pages: seq<Page>, k: nat, paged: bool, limits: Limits)
    requires k < |pages|
    ensures var p, on := pages[k], pages[k].sent && paged && GoesOn(pages[k], limits);
            && AllEntries(pages, k, paged, limits)
               == (if p.sent then PageEntries(p.replies) else []) + (if on then AllEntries(pages, k + 1, paged, limits) else [])
            && AllUris(pages, k, paged, limits)
               == (if p.sent then PageUris(p.replies) else []) + (if on then AllUris(pages, k + 1, paged, limits) else [])
  {
    hide Cookie, Complete, PageEnd, PageEntries, PageUris;
    var p := pages[k];
    PageEnds(p.replies, p.closes, paged, limits);
    assert p.sent ==> Page(true, p.replies, p.closes) == p;
    UnsentIncomplete(p);
  }

  /** A search yields the entries and the URIs of all pages up to the first that it does
      not go on from, that one included if it could be asked for, and of no later one. */
  lemma {:induction false} YieldsReached(pages: seq<Page>, k: nat, n: nat, paged: bool, limits: Limits)
    requires k <= n <= |pages| && (forall j :: k <= j < n ==> paged && GoesOn(pages[j], limits))
    requires n < |pages| ==> !(paged && GoesOn(pages[n], limits))
    ensures var last := if n < |pages| && pages[n].sent then n + 1 else n;
            AllEntries(pages, k, paged, limits) == EntriesOf(pages, k, last) && AllUris(pages, k, paged, limits) == UrisOf(pages, k, last)
    decreases n - k
  {
    hide PageEntries, PageUris;
    var last := if n < |pages| && pages[n].sent then n + 1 else n;
    assert EntriesOf(pages, last, last) == [] && UrisOf(pages, last, last) == [];
    if k == |pages| {
      assert AllEntries(pages, k, paged, limits) == [] && AllUris(pages, k, paged, limits) == [];
    } else {
      PageAdds(pages, k, paged, limits);
      if k < last { PagesFront(pages, k, last); }
      hide AllEntries, AllUris, EntriesOf, UrisOf;
      if k < n {
        GoingIsSent(pages[k], limits);
        YieldsReached(pages, k + 1, n, paged, limits);
      }
    }
  }

  lemma GoingIsSent(p: Page, limits: Limits)
    requires GoesOn(p, limits)
    ensures p.sent
  {
    hide Cookie;
  }

  lemma UnsentIncomplete(p: Page)
    ensures Complete(p) ==> p.sent && p.replies != [] && p.replies[|p.replies| - 1].DoneReply?
  {
  }

  // The size and cookie a request carries, if the search is paged.
  datatype Request = Request(paged: Option<(uint32, bytes)>)

  // ----------------------------------------------------------------- the iterator

  datatype Stream = Stream(replies: seq<Reply>, closes: bool)

  // The request carries exactly the cookie that the page before it ended with.
  ghost predicate Follows(r: Request, p: Page, pageSize: uint32, limits: Limits)
  {
    var e := PageEnd(p.replies, p.closes, pageSize > 0, limits);
    e.More? && r == Request(Some((pageSize, e.cookie)))
  }

  // The first request has an empty cookie, and each later one follows its page.
  ghost predicate Chain(requests: seq<Request>, pages: seq<Page>, pageSize: uint32, limits: Limits)
  {
    && (requests != [] ==> requests[0] == Request(if pageSize > 0 then Some((pageSize, [])) else None))
    && (forall k :: 0 < k < |requests| ==> k <= |pages| && Follows(requests[k], pages[k - 1], pageSize, limits))
  }

  lemma ChainMore(requests: seq<Request>, pages: seq<Page>, pageSize: uint32, limits: Limits, cookie: bytes)
    requires Chain(requests, pages, pageSize, limits) && 0 < |requests| <= |pages| && pageSize > 0
    requires var p := pages[|requests| - 1]; PageEnd(p.replies, p.closes, true, limits) == More(cookie)
    ensures Chain(requests + [Request(Some((pageSize, cookie)))], pages, pageSize, limits)
  {
    var more := requests + [Request(Some((pageSize, cookie)))];
    assert more[0] == requests[0];
    assert Follows(more[|requests|], pages[|requests| - 1], pageSize, limits);
  }

  lemma Regroup(a: seq<bytes>, b: seq<bytes>, c: seq<bytes>, d: seq<bytes>)
    ensures a + (b + c + d) == (a + b) + (c + d) && b + c + d == b + (c + d)
  {
  }

  datatype Outcome = Got | Over | Again

  class Entries {
    const pageSize: uint32
    const limits: Limits
    const pages: seq<Page>             // the transcript, one page per request
    var asked: nat                     // how many requests were made
    var stream: Option<Stream>
    var entry: bytes
    var failed: bool                   // err is set
    var done: bool
    var closed: bool
    var controls: seq<Control>
    var referrals: seq<bytes>
    ghost var requests: seq<Request>   // every request so far
    ghost var open: nat                // response streams opened and not closed

    function Paged(): bool { pageSize > 0 }

    ghost function EndOfPage(k: nat): End
      requires k < |pages|
    {
      PageEnd(pages[k].replies, pages[k].closes, Paged(), limits)
    }

    ghost predicate Chained()
      reads this
    {
      |requests| == asked <= |pages| + 1 && Chain(requests, pages, pageSize, limits)
    }

    // The open stream is the unread rest of the page last asked for.
    ghost predicate Reading()
      reads this
    {
      && stream.Some? && 0 < asked <= |pages| && pages[asked - 1].sent && stream.value.closes == pages[asked - 1].closes
      && PageEnd(stream.value.replies, stream.value.closes, Paged(), limits) == EndOfPage(asked - 1)
    }

    // How the whole search ends.
    ghost function WholeEnd(): End { SearchEnd(pages, 0, Paged(), limits) }

    // How it ends when the page last asked for is read to its end.
    ghost function EndFromHere(): End
      requires 0 < asked <= |pages|
      reads this
    {
      if EndOfPage(asked - 1).More? then SearchEnd(pages, asked, Paged(), limits) else EndOfPage(asked - 1)
    }

    // Unless it is over, the iterator has the stream it reads; never more than one is
    // open. It has failed only if the search fails, and is done without its caller
    // having closed it only if the search ends well.
    ghost predicate Valid()
      reads this
    {
      && Chained() && (!done && !failed ==> Reading() && WholeEnd() == EndFromHere()) && (closed ==> done && stream.None?)
      && (failed ==> WholeEnd() == Fail) && (done && !closed ==> !failed && WholeEnd() == Stop)
      && open == if stream.Some? then 1 else 0
    }

    // The entries still to come.
    ghost function Remaining(): seq<bytes>
      requires Valid()
      reads this
    {
      if done || failed then []
      else PageEntries(stream.value.replies) + if EndOfPage(asked - 1).More? then AllEntries(pages, asked, Paged(), limits) else []
    }

    // The referral URIs still to come.
    ghost function RemainingUris(): seq<bytes>
      requires Valid()
      reads this
    {
      if done || failed then []
      else PageUris(stream.value.replies) + if EndOfPage(asked - 1).More? then AllUris(pages, asked, Paged(), limits) else []
    }

    /** Search: the first page is asked for with an empty cookie; everything the
        transcript holds is still to come. */
    constructor (pageSize: uint32, limits: Limits, pages: seq<Page>)
      ensures Valid() && this.pageSize == pageSize && this.limits == limits && this.pages == pages && !done && !closed
      ensures failed <==> pages == [] || !pages[0].sent
      ensures Remaining() == AllEntries(pages, 0, pageSize > 0, limits)
      ensures referrals + RemainingUris() == AllUris(pages, 0, pageSize > 0, limits)
    {
      this.pageSize, this.limits, this.pages := pageSize, limits, pages;
      asked, stream, entry, failed, done, closed, controls, referrals := 0, None, [], false, false, false, [], [];
      requests, open := [], 0;
      new;
      var ok := StartPage([]);
      failed := !ok;
      assert [] + RemainingUris() == RemainingUris();
    }

    // startPage and ExecuteStream: a page is not started while a stream is open.
    method StartPage(cookie: bytes) returns (ok: bool)
      requires stream.None? ==> open == 0 && |requests| == asked
      modifies `stream, `asked, `requests, `open
      ensures ok <==> old(stream).None? && old(asked) < |pages| && pages[old(asked)].sent
      ensures old(stream).Some? ==> stream == old(stream) && asked == old(asked) && requests == old(requests) && open == old(open)
      ensures old(stream).None? ==>
                && asked == old(asked) + 1
                && requests == old(requests) + [Request(if Paged() then Some((pageSize, cookie)) else None)]
                && stream == (if ok then Some(Stream(pages[old(asked)].replies, pages[old(asked)].closes)) else None)
                && open == if ok then 1 else 0
    {
      if stream.Some? {
        return false;
      }
      var k := asked;
      requests := requests + [Request(if Paged() then Some((pageSize, cookie)) else None)];
      asked := asked + 1;
      if k >= |pages| || !pages[k].sent {
        return false;
      }
      stream, open := Some(Stream(pages[k].replies, pages[k].closes)), 1;
      return true;
    }

    // closeStream
    method CloseStream() returns (ok: bool)
      modifies `stream, `open
      ensures stream == None && open == (if old(stream).Some? && old(open) > 0 then old(open) - 1 else old(open))
      ensures ok <==> (old(stream).Some? ==> old(stream).value.closes)
    {
      if stream.None? {
        return true;
      }
      var closing := stream.value;
      stream := None;
      open := if open > 0 then open - 1 else 0;
      return closing.closes;
    }

    // The final response of a page: the search is over, has failed, or goes on.
    method FinishPage(success: bool, found: seq<Control>) returns (goesOn: bool)
      requires Chained() && stream.Some? && open == 1 && 0 < asked <= |pages| && !done && !failed && !closed
      requires EndOfPage(asked - 1) == AfterDone(success, found, stream.value.replies, stream.value.closes, Paged(), limits)
      requires WholeEnd() == EndFromHere()
      modifies this
      ensures Valid() && closed == old(closed) && asked >= old(asked) && controls == found && referrals == old(referrals)
      ensures goesOn ==> !done && !failed && asked > old(asked) && EndOfPage(old(asked) - 1).More?
      ensures !goesOn ==> done || failed
      ensures if goesOn then Remaining() == AllEntries(pages, old(asked), Paged(), limits)
              else !EndOfPage(old(asked) - 1).More? || AllEntries(pages, old(asked), Paged(), limits) == []
      ensures if goesOn then RemainingUris() == AllUris(pages, old(asked), Paged(), limits)
              else !EndOfPage(old(asked) - 1).More? || AllUris(pages, old(asked), Paged(), limits) == []
    {
      hide Chain, Cookie;
      controls := found;
      if !success || stream.value.replies != [] {
        failed := true;
        return false;
      }
      var ok := CloseStream();
      if !ok {
        failed := true;
        return false;
      }
      if pageSize == 0 {
        done := true;
        return false;
      }
      var cookie := PagedResultsCookie(found, limits);
      if cookie.Err? {
        failed := true;
        return false;
      }
      if |cookie.value| == 0 {
        done := true;
        return false;
      }
      ChainMore(requests, pages, pageSize, limits, cookie.value);
      ok := StartPage(cookie.value);
      failed := !ok;
      return ok;
    }

    // An entry or a reference.
    method ReadRow() returns (r: Outcome)
      requires Valid() && !done && !failed && stream.value.replies != [] && IsRow(stream.value.replies[0])
      modifies `stream, `entry, `referrals
      ensures Valid() && stream.Some? && stream.value.replies == old(stream.value.replies)[1..]
      ensures referrals + RemainingUris() == old(referrals + RemainingUris())
      ensures if r.Got? then old(Remaining()) == [entry] + Remaining() else r.Again? && Remaining() == old(Remaining())
    {
      hide PageEntries, PageUris, PageEnd, AllEntries, AllUris, SearchEnd, Chain;
      var replies := stream.value.replies;
      FirstReply(replies, stream.value.closes, Paged(), limits);
      ghost var tail := if EndOfPage(asked - 1).More? then AllEntries(pages, asked, Paged(), limits) else [];
      ghost var uris := if EndOfPage(asked - 1).More? then AllUris(pages, asked, Paged(), limits) else [];
      stream := Some(Stream(replies[1..], stream.value.closes));
      if replies[0].EntryReply? {
        entry := replies[0].entry;
        Regroup([], [entry], PageEntries(replies[1..]), tail);
        return Got;
      }
      Regroup(referrals, replies[0].uris, PageUris(replies[1..]), uris);
      referrals := referrals + replies[0].uris;
      return Again;
    }

    // One turn of Next.
    method ReadReply() returns (r: Outcome)
      requires Valid() && !done && !failed
      modifies this
      ensures Valid()
      ensures closed == old(closed) && referrals + RemainingUris() == old(referrals + RemainingUris())
      ensures r.Got? ==> old(Remaining()) == [entry] + Remaining()
      ensures r.Over? ==> old(Remaining()) == [] && (done || failed)
      ensures r.Again? ==> !done && !failed && Remaining() == old(Remaining())
      ensures r.Again? ==> asked > old(asked) || (asked == old(asked) && |stream.value.replies| < old(|stream.value.replies|))
    {
      hide PageEntries, PageUris, PageEnd, AllEntries, AllUris, SearchEnd, AfterDone, Chain;
      var replies := stream.value.replies;
      FirstReply(replies, stream.value.closes, Paged(), limits);
      if replies != [] && (replies[0].EntryReply? || replies[0].ReferenceReply?) {
        r := ReadRow();
        return;
      }
      ghost var tail := if EndOfPage(asked - 1).More? then AllEntries(pages, asked, Paged(), limits) else [];
      ghost var uris := if EndOfPage(asked - 1).More? then AllUris(pages, asked, Paged(), limits) else [];
      assert Remaining() == tail && RemainingUris() == uris;
      if replies == [] || replies[0].BrokenReply? {
        failed := true;
        return Over;
      }
      stream := Some(Stream(replies[1..], stream.value.closes));
      var goesOn := FinishPage(replies[0].success, replies[0].controls);
      return if goesOn then Again else Over;
    }

    /** Advances to the next entry across page boundaries: it hands out the first of the
        entries still to come, and says false exactly when none are left. Then, unless its
        caller has closed it, it has failed exactly if the search ends in a failure, and
        is done without an error exactly if it ends well. */
    method Next() returns (more: bool)
      requires Valid()
      modifies this
      ensures Valid() && closed == old(closed) && referrals + RemainingUris() == old(referrals + RemainingUris())
      ensures !more && !closed ==> (failed <==> WholeEnd() == Fail) && (done && !failed <==> WholeEnd() == Stop)
      ensures more ==> old(Remaining()) == [entry] + Remaining()
      ensures !more ==> old(Remaining()) == [] && Remaining() == [] && RemainingUris() == [] && (done || failed)
    {
      hide PageEntries, PageUris, PageEnd, AllEntries, AllUris, SearchEnd, Chain;
      if done || failed {
        return false;
      }
      var r := Again;
      while r.Again?
        invariant Valid() && closed == old(closed) && referrals + RemainingUris() == old(referrals + RemainingUris())
        invariant (r.Again? ==> !done && !failed && Remaining() == old(Remaining()))
        invariant r.Got? ==> old(Remaining()) == [entry] + Remaining()
        invariant r.Over? ==> old(Remaining()) == [] && (done || failed)
        decreases r.Again?, |pages| + 1 - asked, if stream.Some? then |stream.value.replies| else 0
      {
        r := ReadReply();
      }
      return r.Got?;
    }

    // Close
    method Close()
      requires Valid()
      modifies this
      ensures Valid() && done && closed && open == 0 && failed == old(failed)
    {
      if !closed {
        closed, done := true, true;
        var _ := CloseStream();
      }
    }
  }

  /** Reading a search to its end yields the entries of the pages the server sent, in
      order, up to the first error or empty cookie, collects the URIs of their references
      likewise, and reports an error exactly if the search ended in one. */
  method Collect(pageSize: uint32, limits: Limits, pages: seq<Page>) returns (entries: seq<bytes>, referrals: seq<bytes>, ok: bool)
    ensures entries == AllEntries(pages, 0, pageSize > 0, limits)
    ensures referrals == AllUris(pages, 0, pageSize > 0, limits)
    ensures ok <==> SearchEnd(pages, 0, pageSize > 0, limits) == Stop
  {
    hide PageEntries, PageEnd, AllEntries, AllUris, SearchEnd, Entries.Valid, Entries.Remaining, Entries.RemainingUris;
    var rows := new Entries(pageSize, limits, pages);
    entries := [];
    var more := true;
    while more
      invariant rows.Valid() && fresh(rows) && !rows.closed && rows.pages == pages && rows.limits == limits && rows.pageSize == pageSize
      invariant entries + rows.Remaining() == AllEntries(pages, 0, pageSize > 0, limits)
      invariant rows.referrals + rows.RemainingUris() == AllUris(pages, 0, pageSize > 0, limits)
      invariant !more ==> rows.Remaining() == [] && rows.RemainingUris() == [] && (rows.failed <==> rows.WholeEnd() == Fail)
      decreases |rows.Remaining()|, more
    {
      more := rows.Next();
      if more {
        assert entries + ([rows.entry] + rows.Remaining()) == entries + [rows.entry] + rows.Remaining();
        entries := entries + [rows.entry];
      }
    }
    referrals, ok := rows.referrals, !rows.failed;
  }
}
