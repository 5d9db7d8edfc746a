/**
  A content request: planning the range from the total the core reports, the skip and
  remaining counters that cut the window out of whatever the core streams, and the frame loop
  that drives them. For every file, range and way of chunking, the client gets exactly the
  window that was promised in the headers.
*/
module ContentStream {

  import opened ByteText

  // ---- the plan -----------------------------------------------------------------------

  datatype ContentRange =
    | Absent
    | Window(first: int, last: int, total: int)        // bytes first-last/total
    | Unsatisfied(total: int)                          // bytes */total
    | OpenTotal(first: int, last: int)                 // bytes first-last/*, last < first when unknown

  datatype RangePlan = RangePlan(status: int, start: int, length: int, contentRange: ContentRange)

  function Min(a: int, b: int): int { if a < b then a else b }

  function PlanRange(hasRange: bool, rs: int, re: int, total: int): RangePlan {
    if !hasRange || total <= 0 then RangePlan(200, 0, if total > 0 then total else -1, Absent)
    else if rs >= total then RangePlan(416, 0, -1, Unsatisfied(total))
    else
      var end := if re >= 0 then Min(re, total - 1) else total - 1;
      RangePlan(206, rs, end - rs + 1, Window(rs, end, total))
  }

  datatype Frame = Frame(success: bool, data: Bytes, totalSize: int, ranged: bool, rangeLength: int)

  /** The plan for the first frame; an older core may window without knowing the total. */
  function PlanFor(hasRange: bool, rs: int, re: int, f: Frame): RangePlan {
    if hasRange && f.totalSize <= 0 && f.ranged then
      if f.rangeLength > 0 then RangePlan(206, rs, f.rangeLength, OpenTotal(rs, rs + f.rangeLength - 1))
      else RangePlan(206, rs, -1, OpenTotal(rs, rs - 1))
    else PlanRange(hasRange, rs, re, f.totalSize)
  }

  /** Bytes to drop here: only when the core answered a range from byte zero. */
  function SkipFor(plan: RangePlan, rs: int, f: Frame): int {
    if plan.status == 206 && !f.ranged then rs else 0
  }

  /** What skipping `skip` bytes and then keeping at most `length` (negative: all) leaves. */
  function Clip(skip: int, length: int, stream: Bytes): Bytes {
    var rest := if skip <= 0 then stream else if |stream| <= skip then [] else stream[skip..];
    if length < 0 || |rest| <= length then rest else rest[..length]
  }

  /** The payload of the frames before the first error frame. */
  function Payload(frames: seq<Frame>): Bytes {
    if frames == [] || !frames[0].success then [] else frames[0].data + Payload(frames[1..])
  }

  lemma {:induction false} PayloadStep(frames: seq<Frame>, n: nat)
    requires n < |frames| && (forall m :: 0 <= m <= n ==> frames[m].success)
    ensures Payload(frames[..n + 1]) == Payload(frames[..n]) + frames[n].data
    decreases n
  {
    if n == 0 {
      assert frames[..1][1..] == [] && Payload(frames[..1]) == frames[0].data + [];
    } else {
      assert frames[..n + 1][1..] == frames[1..][..n] && frames[..n][1..] == frames[1..][..n - 1];
      PayloadStep(frames[1..], n - 1);
    }
  }

  lemma {:induction false} PayloadPrefix(frames: seq<Frame>, n: nat)
    requires n <= |frames|
    ensures Payload(frames[..n]) <= Payload(frames)
    decreases n
  {
    if n == 0 || !frames[0].success {
    } else {
      assert frames[..n][1..] == frames[1..][..n - 1];
      PayloadPrefix(frames[1..], n - 1);
    }
  }

  lemma {:induction false} PayloadEnds(frames: seq<Frame>, n: nat)
    requires n < |frames| && !frames[n].success
    ensures Payload(frames) == Payload(frames[..n])
    decreases n
  {
    if n == 0 || !frames[0].success {
    } else {
      assert frames[..n][1..] == frames[1..][..n - 1];
      PayloadEnds(frames[1..], n - 1);
    }
  }

  /** Once the window is full, nothing later changes it. */
  lemma FullClipStays(skip: int, length: int, s: Bytes, t: Bytes)
    requires s <= t && 0 <= length && |Clip(skip, length, s)| == length
    ensures Clip(skip, length, t) == Clip(skip, length, s)
  {}

  /** One more chunk: drop what is still to be skipped, keep what is still owed. */
  lemma ClipStep(skip: int, length: int, s: Bytes, chunk: Bytes)
    requires 0 <= skip
    ensures var done := Clip(skip, length, s);
            var d := Min(if |s| < skip then skip - |s| else 0, |chunk|);
            var n := if length < 0 then |chunk| - d else Min(|chunk| - d, length - |done|);
            0 <= d <= |chunk| && (length < 0 || |done| <= length) && 0 <= n
            && Clip(skip, length, s + chunk) == done + chunk[d..d + n]
  {
    var d := Min(if |s| < skip then skip - |s| else 0, |chunk|);
    if |s| < skip {
      assert |s + chunk| > skip ==> (s + chunk)[skip..] == chunk[d..];
    } else {
      assert (s + chunk)[skip..] == s[skip..] + chunk;
    }
  }

  // ---- the response being written ------------------------------------------------------

  /** The state the meta and chunk callbacks share while one response is written. */
  class Response {
    const hasRange: bool
    const rs: int
    const re: int
    var skip: int
    var remaining: int
    var headerSent: bool
    var status: int             // 0 until a header is sent
    var contentLength: int      // negative: none announced
    var contentRange: ContentRange
    var body: Bytes

    constructor (range: bool, start: int, end: int)
      ensures hasRange == (range && !(end >= 0 && end < start)) && rs == start && re == end
      ensures (range ==> start >= 0) ==> Unsent()
    {
      hasRange := range && !(end >= 0 && end < start);
      rs, re, skip, remaining, headerSent := start, end, 0, -1, false;
      status, contentLength, contentRange, body := 0, -1, Absent, [];
    }

    method OnMeta(f: Frame) returns (go: bool)
      requires Unsent()
      modifies this
      ensures var plan := PlanFor(hasRange, rs, re, f);
              && headerSent && status == plan.status && contentRange == plan.contentRange && body == []
              && go == (plan.status != 416)
              && (go ==> skip == SkipFor(plan, rs, f) && remaining == contentLength == plan.length)
              && (!go ==> contentLength == 0)
    {
      var plan := PlanRange(hasRange, rs, re, f.totalSize);
      if hasRange && f.totalSize <= 0 && f.ranged {
        var length := if f.rangeLength > 0 then f.rangeLength else -1;
        plan := RangePlan(206, rs, length, OpenTotal(rs, if length > 0 then rs + length - 1 else rs - 1));
      }
      headerSent, status, contentRange := true, plan.status, plan.contentRange;
      if plan.status == 416 {
        contentLength := 0;
        return false;
      }
      if plan.status == 206 && !f.ranged { skip := rs; }
      remaining, contentLength := plan.length, plan.length;
      return true;
    }

    ghost predicate Unsent()
      reads this
    {
      !headerSent && body == [] && skip == 0 && status == 0 && (hasRange ==> rs >= 0)
    }

    /** The header in place is the one planned from `f`, and a body follows. */
    ghost predicate HeaderFor(f: Frame, skip0: int, length: int)
      reads this
    {
      var plan := PlanFor(hasRange, rs, re, f);
      && headerSent && plan.status != 416 && status == plan.status && contentRange == plan.contentRange
      && contentLength == length == plan.length && skip0 == SkipFor(plan, rs, f)
    }

    /** The answer to a stream whose first frame is good: planned header, and the clipped payload. */
    ghost predicate Answered(frames: seq<Frame>)
      reads this
    {
      && frames != [] && headerSent
      && var plan := PlanFor(hasRange, rs, re, frames[0]);
      && status == plan.status && contentRange == plan.contentRange
      && (status == 416 ==> body == [] && contentLength == 0)
      && (status != 416 ==>
            contentLength == plan.length && body == Clip(SkipFor(plan, rs, frames[0]), plan.length, Payload(frames)))
    }

    /** `s` is what has been streamed since the header, `skip0` and `length` what the header settled. */
    ghost predicate InStep(skip0: int, length: int, s: Bytes)
      reads this
    {
      && 0 <= skip0 && body == Clip(skip0, length, s)
      && skip == (if |s| < skip0 then skip0 - |s| else 0)
      && (if length < 0 then remaining < 0 else remaining == length - |body| >= 0)
    }

    method OnChunk(chunk: Bytes, ghost skip0: int, ghost length: int, ghost s: Bytes) returns (go: bool)
      requires InStep(skip0, length, s) && chunk != []
      modifies this`skip, this`remaining, this`body
      ensures InStep(skip0, length, s + chunk)
      ensures !go ==> 0 <= length == |body|
    {
      ClipStep(skip0, length, s, chunk);
      var p, n := 0, |chunk|;
      if skip > 0 {
        var d := Min(skip, n);
        p, n, skip := p + d, n - d, skip - d;
        if n == 0 {
          assert chunk[p..p + n] == [];
          return true;
        }
      }
      if remaining >= 0 { n := Min(n, remaining); }
      if n > 0 { body := body + chunk[p..p + n]; }
      if remaining >= 0 {
        remaining := remaining - n;
        if remaining <= 0 { return false; }
      }
      return true;
    }

    /**
      The frame loop. It stops at an error frame, when the header needs no body, or when the
      window is complete; otherwise it runs to the end of the stream.
    */
    method StreamFileDownload(frames: seq<Frame>) returns (failed: bool)
      requires Unsent()
      modifies this
      ensures headerSent <==> frames != [] && frames[0].success
      ensures !headerSent ==> Unsent() && (failed <==> frames != [])
      ensures headerSent ==> Answered(frames)
    {
      failed := false;
      var first := true;
      ghost var skip0, length := 0, -1;
      var i := 0;
      while i < |frames|
        invariant 0 <= i <= |frames| && !failed && forall m :: 0 <= m < i ==> frames[m].success
        invariant first <==> i == 0
        invariant first ==> Unsent()
        invariant !first ==> HeaderFor(frames[0], skip0, length) && InStep(skip0, length, Payload(frames[..i]))
      {
        if !frames[i].success {
          failed := true;
          PayloadEnds(frames, i);
          break;
        }
        if first {
          first := false;
          var go := OnMeta(frames[0]);
          if !go { break; }
          skip0, length := skip, remaining;
          assert Payload(frames[..0]) == [];
        }
        PayloadStep(frames, i);
        if frames[i].data != [] {
          var go := OnChunk(frames[i].data, skip0, length, Payload(frames[..i]));
          if !go {
            PayloadPrefix(frames, i + 1);
            FullClipStays(skip0, length, Payload(frames[..i + 1]), Payload(frames));
            break;
          }
        } else {
          assert Payload(frames[..i]) + [] == Payload(frames[..i]);
        }
        i := i + 1;
      }
      assert i == |frames| ==> frames[..i] == frames;
    }

    /** The whole request; `finished` is whether the core's stream ended without an error status. */
    method GetContent(frames: seq<Frame>, finished: bool) returns (refused: bool)
      requires Unsent()
      modifies this
      ensures refused <==> (frames != [] && !frames[0].success) || (frames == [] && !finished)
      ensures refused ==> Unsent()
      ensures frames == [] && finished ==> headerSent && status == 200 && contentLength == 0 && body == []
      ensures frames != [] && frames[0].success ==> Answered(frames)
    {
      var failed := StreamFileDownload(frames);
      if failed || !finished { return !headerSent; }
      if !headerSent { headerSent, status, contentLength := true, 200, 0; }
      return false;
    }
  }

  // ---- exact delivery ----------------------------------------------------------------------

  /** The half-open window a satisfiable range names in a file. */
  function Asked(file: Bytes, rs: int, re: int): Bytes
    requires 0 <= rs < |file| && (re < 0 || rs <= re)
  {
    file[rs..(if re >= 0 then Min(re, |file| - 1) else |file| - 1) + 1]
  }

  /**
    A satisfiable range: the headers describe exactly the window, and what is written is that
    window cut short only where the stream was, whether the core windowed or streamed from zero.
  */
  lemma ExactWindow(file: Bytes, rs: int, re: int, f: Frame, payload: Bytes)
    requires 0 <= rs < |file| && (re < 0 || rs <= re) && f.totalSize == |file|
    requires payload <= (if f.ranged then file[rs..] else file)
    ensures var plan := PlanFor(true, rs, re, f);
            var want := Asked(file, rs, re);
            var sent := Clip(SkipFor(plan, rs, f), plan.length, payload);
            && plan.status == 206 && plan.length == |want| > 0
            && plan.contentRange == Window(rs, rs + |want| - 1, |file|)
            && sent <= want
            && (sent == want <==> |payload| >= (if f.ranged then |want| else rs + |want|))
  {
    var plan := PlanFor(true, rs, re, f);
    var want := Asked(file, rs, re);
    var skip := SkipFor(plan, rs, f);
    if skip > 0 && |payload| > skip {
      assert forall i :: 0 <= i < |payload| - skip ==> payload[skip..][i] == file[rs..][i];
    }
  }

  /** Without a range the whole file is announced and sent. */
  lemma WholeFile(file: Bytes, rs: int, re: int, f: Frame, payload: Bytes)
    requires f.totalSize == |file| > 0 && payload <= file
    ensures var plan := PlanFor(false, rs, re, f);
            && plan.status == 200 && plan.length == |file| && plan.contentRange == Absent
            && Clip(SkipFor(plan, rs, f), plan.length, payload) == payload
  {}

  /** 416 is answered exactly to a range that starts at or past a known end. */
  lemma UnsatisfiableIff(hasRange: bool, rs: int, re: int, f: Frame)
    requires f.totalSize > 0
    ensures PlanFor(hasRange, rs, re, f).status == 416 <==> hasRange && rs >= f.totalSize
  {}

  /**
    The whole request, end to end. Whatever frames carry (a prefix of) a non-empty file, cut into
    whatever chunks, windowed by the core or not: an unsatisfiable range is answered 416 with no
    bytes; a satisfiable one with 206, headers that name exactly the window, and the window's bytes,
    all of them as soon as the stream reached that far; and no range with the whole file.
  */
  lemma DeliversWhatWasAsked(r: Response, file: Bytes, frames: seq<Frame>)
    requires frames != [] && frames[0].totalSize == |file| > 0 && r.Answered(frames)
    requires r.hasRange ==> r.rs >= 0 && (r.re < 0 || r.rs <= r.re)
    requires Payload(frames) <= (if r.hasRange && frames[0].ranged && r.rs < |file| then file[r.rs..] else file)
    ensures r.status == 416 <==> r.hasRange && r.rs >= |file|
    ensures r.status == 416 ==> r.body == [] && r.contentRange == Unsatisfied(|file|)
    ensures r.hasRange && r.rs < |file| ==>
              var want := Asked(file, r.rs, r.re);
              && r.status == 206 && r.contentLength == |want|
              && r.contentRange == Window(r.rs, r.rs + |want| - 1, |file|)
              && r.body <= want
              && (r.body == want <==> |Payload(frames)| >= (if frames[0].ranged then |want| else r.rs + |want|))
    ensures !r.hasRange ==>
              r.status == 200 && r.contentLength == |file| && r.contentRange == Absent && r.body == Payload(frames)
  {
    UnsatisfiableIff(r.hasRange, r.rs, r.re, frames[0]);
    if !r.hasRange {
      WholeFile(file, r.rs, r.re, frames[0], Payload(frames));
    } else if r.rs < |file| {
      ExactWindow(file, r.rs, r.re, frames[0], Payload(frames));
    }
  }

  /** So two complete streams of one file give one answer, however each was cut and wherever it began. */
  lemma ChunkingIsInvisible(a: Response, b: Response, file: Bytes, frames: seq<Frame>, frames': seq<Frame>)
    requires a.hasRange && b.hasRange && a.rs == b.rs && a.re == b.re
    requires 0 <= a.rs < |file| && (a.re < 0 || a.rs <= a.re)
    requires frames != [] && frames[0].totalSize == |file| && frames[0].ranged && a.Answered(frames)
    requires frames' != [] && frames'[0].totalSize == |file| && !frames'[0].ranged && b.Answered(frames')
    requires Payload(frames) == Asked(file, a.rs, a.re) && Payload(frames') == file
    ensures a.status == b.status && a.contentLength == b.contentLength && a.contentRange == b.contentRange
    ensures a.body == b.body == Asked(file, a.rs, a.re)
  {
    DeliversWhatWasAsked(a, file, frames);
    DeliversWhatWasAsked(b, file, frames');
  }
}
