/** An image sent to an IOM in Download Microcode Control pages (SES-3 section
    6.1.14): each page says how long it is, and together they are the image. */
module IomPages {
  import opened Common
  import opened Buffers

  // ------------------------------------------------ one page

  const MAX_CHUNK: nat := 65_508

  /** The chunk length used: at least 4, at most what a page holds, whole words. */
  function ChunkLen(configured: nat): nat {
    var clamped := if configured < 4 then 4 else if configured > MAX_CHUNK then MAX_CHUNK else configured;
    clamped / 4 * 4
  }

  function Padded(n: nat): nat { (n + 3) / 4 * 4 }

  function Front(length: nat, subenclosure: bv8, generation: nat, offset: nat, total: nat, chunk: nat): (s: Bytes)
    ensures |s| == 24
  {
    [0x0E, subenclosure] + Be(length, 2) + Be(generation, 4) + [0x07, 0, 0, 0] + Be(offset, 4) + Be(total, 4) + Be(chunk, 4)
  }

  function Page(subenclosure: bv8, generation: nat, offset: nat, total: nat, chunk: Bytes): (p: Bytes)
    ensures |p| == 24 + Padded(|chunk|)
  {
    Front(20 + Padded(|chunk|), subenclosure, generation, offset, total, |chunk|) + chunk + Zeros(Padded(|chunk|) - |chunk|)
  }

  /** What the enclosure takes a page for. */
  datatype Parsed = Parsed(subenclosure: bv8, generation: nat, mode: bv8, offset: nat, total: nat, data: Bytes)

  /** A page whose length field does not match, or whose data would lie past
      its end, is not one. */
  function ParsePage(p: Bytes): Option<Parsed> {
    if |p| < 24 || p[0] != 0x0E || FromBe(p[2..4]) != |p| - 4 || FromBe(p[20..24]) > |p| - 24 then None
    else Some(Parsed(p[1], FromBe(p[4..8]), p[8], FromBe(p[12..16]), FromBe(p[16..20]), p[24..24 + FromBe(p[20..24])]))
  }

  lemma {:induction false} FrontFields(length: nat, sub: bv8, generation: nat, offset: nat, total: nat, chunk: nat)
    ensures var f := Front(length, sub, generation, offset, total, chunk);
      && f[0] == 0x0E && f[1] == sub && f[2..4] == Be(length, 2) && f[4..8] == Be(generation, 4) && f[8] == 0x07
      && f[12..16] == Be(offset, 4) && f[16..20] == Be(total, 4) && f[20..24] == Be(chunk, 4)
  {
    hide Be;
  }

  /** A page reads as what it was made of, its own length field exact, exactly
      when its padded chunk leaves the length inside 16 bits. */
  lemma {:induction false} PageReads(sub: bv8, generation: nat, offset: nat, total: nat, chunk: Bytes)
    requires |chunk| < Pow256(4) && generation < Pow256(4) && offset < Pow256(4) && total < Pow256(4)
    ensures var r := ParsePage(Page(sub, generation, offset, total, chunk));
      if 20 + Padded(|chunk|) <= 0xFFFF then r == Some(Parsed(sub, generation, 0x07, offset, total, chunk)) else r == None
  {
    var length := 20 + Padded(|chunk|);
    var f := Front(length, sub, generation, offset, total, |chunk|);
    var p := Page(sub, generation, offset, total, chunk);
    FrontFields(length, sub, generation, offset, total, |chunk|);
    hide Be, FromBe, Front, Pow256;
    assert p[..24] == f;
    FrontSlices(p, f);
    Widths();
    if length <= 0xFFFF {
      BeRoundTrip(length, 2);
      BeRoundTrip(generation, 4);
      BeRoundTrip(offset, 4);
      BeRoundTrip(total, 4);
      BeRoundTrip(|chunk|, 4);
      assert p[24..24 + |chunk|] == chunk;
    } else {
      FromBeBelow(p[2..4]);
    }
  }

  /** All else in a page is zero: what is reserved, and the padding. */
  lemma {:induction false} PageZeros(sub: bv8, generation: nat, offset: nat, total: nat, chunk: Bytes)
    ensures var p := Page(sub, generation, offset, total, chunk);
      p[9..12] == [0, 0, 0] && forall k :: 24 + |chunk| <= k < |p| ==> p[k] == 0
  {
    hide Be, Padded;
    var f := Front(20 + Padded(|chunk|), sub, generation, offset, total, |chunk|);
    assert f[9..12] == [0, 0, 0];
    assert Page(sub, generation, offset, total, chunk)[9..12] == f[9..12];
  }

  lemma {:induction false} FrontSlices(p: Bytes, f: Bytes)
    requires |f| == 24 && |p| >= 24 && p[..24] == f
    ensures p[0] == f[0] && p[1] == f[1] && p[8] == f[8]
    ensures p[2..4] == f[2..4] && p[4..8] == f[4..8] && p[12..16] == f[12..16] && p[16..20] == f[16..20] && p[20..24] == f[20..24]
  {
  }

  /** The chunk length used always does, and makes whole words. */
  lemma {:induction false} ChunkFits(configured: nat, n: nat)
    requires n <= ChunkLen(configured)
    ensures 4 <= ChunkLen(configured) <= MAX_CHUNK && ChunkLen(configured) % 4 == 0
    ensures 20 + Padded(n) <= 0xFFFF
    ensures n <= Padded(n) < n + 4 && Padded(n) % 4 == 0
  {
  }

  /** It is the largest number of whole words within what was configured and
      what a page holds, and one word for less than that. */
  lemma {:induction false} ChunkLenLargest(configured: nat, other: nat)
    ensures ChunkLen(configured) <= Max(configured, 4)
    ensures other % 4 == 0 && other <= configured && other <= 65_508 ==> other <= ChunkLen(configured)
  {
  }

  // ------------------------------------------------ the whole image

  /** The pages from offset `off` on. */
  function Pages(image: Bytes, sub: bv8, generation: nat, chunk: nat, off: nat): seq<Bytes>
    requires chunk >= 1 && off <= |image|
    decreases |image| - off
  {
    if off == |image| then []
    else
      var end := Min(off + chunk, |image|);
      [Page(sub, generation, off, |image|, image[off..end])] + Pages(image, sub, generation, chunk, end)
  }

  /** An enclosure that wants the bytes in order, each page saying how far the
      image has got and how long it is: what it has in the end. */
  function Assembled(pages: seq<Bytes>, sub: bv8, generation: nat, total: nat, have: Bytes): Option<Bytes>
    decreases |pages|
  {
    if pages == [] then Some(have)
    else
      var p := ParsePage(pages[0]);
      if p.None? || p.value.(data := []) != Parsed(sub, generation, 0x07, |have|, total, []) then None
      else Assembled(pages[1..], sub, generation, total, have + p.value.data)
  }

  /** Together the pages are the image, exactly. */
  lemma {:induction false} PagesAssemble(image: Bytes, sub: bv8, generation: nat, configured: nat, off: nat)
    requires off <= |image| < Pow256(4) && generation < Pow256(4)
    ensures Assembled(Pages(image, sub, generation, ChunkLen(configured), off), sub, generation, |image|, image[..off]) == Some(image)
    decreases |image| - off
  {
    hide Page, ParsePage, Pow256, ChunkLen, Padded;
    var chunk := ChunkLen(configured);
    ChunkFits(configured, 0);
    if off < |image| {
      var end := Min(off + chunk, |image|);
      var data := image[off..end];
      ChunkFits(configured, |data|);
      PageReads(sub, generation, off, |image|, data);
      PagesAssemble(image, sub, generation, configured, end);
      assert image[..off] + data == image[..end];
      var all := Pages(image, sub, generation, chunk, off);
      assert all[1..] == Pages(image, sub, generation, chunk, end);
    } else {
      assert image[..off] == image;
    }
  }

  method ControlPage(sub: bv8, generation: nat, offset: nat, total: nat, chunk: Bytes) returns (p: array<bv8>)
    ensures fresh(p) && p[..] == Page(sub, generation, offset, total, chunk)
  {
    hide Be, Filled;
    var padded := Padded(|chunk|);
    p := ZeroBuffer(24 + padded);
    NothingFilled(24 + padded);
    PutNext(p, [], 0, [0x0E]);
    ghost var f: Bytes := [0x0E];
    assert [] + f == f;
    PutNext(p, f, 1, [sub]);
    f := f + [sub];
    PutNext(p, f, 2, Be(20 + padded, 2));
    f := f + Be(20 + padded, 2);
    PutNext(p, f, 4, Be(generation, 4));
    f := f + Be(generation, 4);
    PutNext(p, f, 8, [0x07]);
    f := f + [0x07];
    SkipZeros(f, 3, 24 + padded);
    f := f + Zeros(3);
    PutFields(p, f, offset, total, |chunk|);
    f := f + (Be(offset, 4) + Be(total, 4) + Be(|chunk|, 4));
    FrontParts(f, 20 + padded, sub, generation, offset, total, |chunk|);
    PutNext(p, f, 24, chunk);
    PageFilled(f, chunk);
  }

  lemma {:induction false} PageFilled(f: Bytes, chunk: Bytes)
    requires |f| == 24
    ensures Filled(f + chunk, 24 + Padded(|chunk|)) == f + chunk + Zeros(Padded(|chunk|) - |chunk|)
  {
  }

  lemma {:induction false} FrontParts(f: Bytes, length: nat, sub: bv8, generation: nat, offset: nat, total: nat, chunk: nat)
    requires f == [0x0E] + [sub] + Be(length, 2) + Be(generation, 4) + [0x07] + Zeros(3) + (Be(offset, 4) + Be(total, 4) + Be(chunk, 4))
    ensures f == Front(length, sub, generation, offset, total, chunk)
  {
    hide Be;
    assert [0x0E] + [sub] == [0x0E, sub];
    assert [0x07] + Zeros(3) == [0x07, 0, 0, 0];
  }

  method PutFields(buf: array<bv8>, ghost front: Bytes, offset: nat, total: nat, chunk: nat)
    requires |front| == 12 && 24 <= buf.Length && buf[..] == Filled(front, buf.Length)
    modifies buf
    ensures buf[..] == Filled(front + (Be(offset, 4) + Be(total, 4) + Be(chunk, 4)), buf.Length)
  {
    hide Be, Filled;
    PutNext(buf, front, 12, Be(offset, 4));
    PutNext(buf, front + Be(offset, 4), 16, Be(total, 4));
    PutNext(buf, front + Be(offset, 4) + Be(total, 4), 20, Be(chunk, 4));
    assert front + Be(offset, 4) + Be(total, 4) + Be(chunk, 4) == front + (Be(offset, 4) + Be(total, 4) + Be(chunk, 4));
  }

  /** What the enclosure made of one page: whether it took it, and whether its
      status after that said it had failed. */
  datatype Answer = Answer(taken: bool, failed: bool)

  /** Page after page to the first that is not taken or after which the status
      says failed (it is not asked after the last); `ok` if there is none. */
  ghost predicate Told(answers: seq<Answer>, pages: nat, sent: nat, ok: bool) {
    && |answers| <= pages
    && (forall k :: 0 <= k < |answers| - 1 ==> answers[k] == Answer(true, false))
    && (ok <==> |answers| == pages && (answers != [] ==> answers[|answers| - 1].taken))
    && (!ok ==> answers != [] && var last := answers[|answers| - 1]; !last.taken || (last.failed && |answers| < pages))
    && sent == |answers| - (if answers != [] && !answers[|answers| - 1].taken then 1 else 0)
  }

  ghost predicate AllTaken(answers: seq<Answer>) { forall k :: 0 <= k < |answers| ==> answers[k] == Answer(true, false) }

  /** One answer more, and where that leaves the run. */
  lemma {:induction false} OneAnswer(answers: seq<Answer>, a: Answer, pages: nat)
    requires AllTaken(answers) && |answers| < pages
    ensures a == Answer(true, false) ==> AllTaken(answers + [a])
    ensures !a.taken ==> Told(answers + [a], pages, |answers|, false)
    ensures a == Answer(true, true) && |answers| + 1 < pages ==> Told(answers + [a], pages, |answers| + 1, false)
  {
  }

  lemma {:induction false} AllAnswered(answers: seq<Answer>)
    ensures AllTaken(answers) ==> Told(answers, |answers|, |answers|, true)
  {
  }

  lemma {:induction false} PagesStep(image: Bytes, sub: bv8, generation: nat, chunk: nat, off: nat)
    requires chunk >= 1 && off < |image|
    ensures var end := Min(off + chunk, |image|);
      && Pages(image, sub, generation, chunk, off) == [Page(sub, generation, off, |image|, image[off..end])] + Pages(image, sub, generation, chunk, end)
      && (end < |image| ==> |Pages(image, sub, generation, chunk, end)| >= 1)
      && (end == |image| ==> Pages(image, sub, generation, chunk, end) == [])
  {
  }

  /** The send loop: the next page as long as the enclosure takes them, and
      does not say after one of them that it has failed. `ok` when all were
      sent. */
  method SendImage(image: Bytes, sub: bv8, generation: nat, configured: nat)
    returns (sent: seq<Bytes>, ok: bool, ghost answers: seq<Answer>)
    requires |image| < Pow256(4) && generation < Pow256(4)
    ensures sent <= Pages(image, sub, generation, ChunkLen(configured), 0)
    ensures ok ==> sent == Pages(image, sub, generation, ChunkLen(configured), 0)
    ensures ok ==> Assembled(sent, sub, generation, |image|, []) == Some(image)
    ensures Told(answers, |Pages(image, sub, generation, ChunkLen(configured), 0)|, |sent|, ok)
  {
    hide Page, Pow256, ChunkLen;
    var chunk := ChunkLen(configured);
    ChunkFits(configured, 0);
    ghost var all := Pages(image, sub, generation, chunk, 0);
    var off := 0;
    sent := [];
    answers := [];
    assert AllTaken([]);
    ok := true;
    assert off == |image| ==> all == [];
    hide Pages, Told, AllTaken;
    while off < |image| && ok
      invariant off <= |image|
      invariant ok ==> all == sent + Pages(image, sub, generation, chunk, off)
      invariant off == |image| && ok ==> all == sent
      invariant sent <= all
      invariant if ok then |answers| == |sent| && AllTaken(answers) else Told(answers, |all|, |sent|, false)
      decreases |image| - off, ok
    {
      var end := Min(off + chunk, |image|);
      PagesStep(image, sub, generation, chunk, off);
      ghost var next := Page(sub, generation, off, |image|, image[off..end]);
      NextSent(all, sent, next, Pages(image, sub, generation, chunk, end));
      var page := ControlPage(sub, generation, off, |image|, image[off..end]);
      assert page[..] == next;
      var taken: bool := *;
      if !taken {
        OneAnswer(answers, Answer(false, false), |all|);
        ok := false;
        answers := answers + [Answer(false, false)];
      } else {
        sent := sent + [page[..]];
        off := end;
        var failed: bool := false;
        if off < |image| { failed := *; }
        if failed { ok := false; }
        OneAnswer(answers, Answer(true, failed), |all|);
        answers := answers + [Answer(true, failed)];
      }
    }
    if ok {
      AllAnswered(answers);
      assert image[..0] == [];
      PagesAssemble(image, sub, generation, configured, 0);
    }
  }

  lemma {:induction false} NextSent(all: seq<Bytes>, sent: seq<Bytes>, next: Bytes, rest: seq<Bytes>)
    requires all == sent + ([next] + rest)
    ensures |sent| < |all| && all == (sent + [next]) + rest && sent + [next] <= all
    ensures rest != [] ==> |sent| + 1 < |all|
    ensures rest == [] ==> all == sent + [next]
  {
  }
}
