/** `ReadinessState`: seven fields packed into one machine word (src/poll.rs:15-162), and the
    record it stands for. The protocol proofs use the record. */
module ReadinessWord {

  // ---------- the record ----------

  datatype Word = Word(readiness: bv4, interest: bv4, opt: bv4, rd: bv2, wr: bv2, queued: bool, dropped: bool)
  {
    // effective_readiness
    function Effective(): bv4 { readiness & interest }

    predicate Edge() { opt & EDGE == EDGE }

    predicate Oneshot() { opt & ONESHOT == ONESHOT }

    predicate Positions() { rd < 3 && wr < 3 }

    // next_token_pos, on the positions that occur
    function NextPos(): bv2 {
      match wr
      case 0 => if rd == 1 then 2 else 1
      case 1 => if rd == 0 then 2 else if rd == 2 then 0 else 2
      case _ => if rd == 0 then 1 else 0
    }
  }

  const READABLE: bv4 := 1
  const EDGE: bv4 := 1
  const ONESHOT: bv4 := 4

  // ---------- the packed word ----------

  const READINESS_SHIFT: bv64 := 0
  const INTEREST_SHIFT: bv64 := 4
  const POLL_OPT_SHIFT: bv64 := 8
  const TOKEN_RD_SHIFT: bv64 := 12
  const TOKEN_WR_SHIFT: bv64 := 14
  const QUEUED_SHIFT: bv64 := 16
  const DROPPED_SHIFT: bv64 := 17
  const MASK_2: bv64 := 4 - 1
  const MASK_4: bv64 := 16 - 1
  const QUEUED_MASK: bv64 := 1 << QUEUED_SHIFT
  const DROPPED_MASK: bv64 := 1 << DROPPED_SHIFT

  function Get(w: bv64, mask: bv64, shift: bv64): bv64
    requires shift < 64
  {
    (w >> shift) & mask
  }

  function Set(w: bv64, val: bv64, mask: bv64, shift: bv64): bv64
    requires shift < 64
  {
    (w & !(mask << shift)) | (val << shift)
  }

  function New(interest: bv64, opt: bv64): bv64 { (interest << INTEREST_SHIFT) | (opt << POLL_OPT_SHIFT) }

  function SetReadiness(w: bv64, v: bv64): bv64 { Set(w, v, MASK_4, READINESS_SHIFT) }

  function SetInterest(w: bv64, v: bv64): bv64 { Set(w, v, MASK_4, INTEREST_SHIFT) }

  function SetPollOpt(w: bv64, v: bv64): bv64 { Set(w, v, MASK_4, POLL_OPT_SHIFT) }

  function Disarm(w: bv64): bv64 { SetInterest(w, 0) }

  function SetTokenWritePos(w: bv64, v: bv64): bv64 { Set(w, v, MASK_2, TOKEN_WR_SHIFT) }

  function UpdateTokenReadPos(w: bv64): bv64 { Set(w, Get(w, MASK_2, TOKEN_WR_SHIFT), MASK_2, TOKEN_RD_SHIFT) }

  function SetQueued(w: bv64): bv64 { w | QUEUED_MASK }

  function SetDequeued(w: bv64): bv64 { w & !QUEUED_MASK }

  function FlagAsDropped(w: bv64): bv64 { w | (DROPPED_MASK | QUEUED_MASK) }

  predicate IsQueued(w: bv64) { w & QUEUED_MASK == QUEUED_MASK }

  predicate IsDropped(w: bv64) { w & DROPPED_MASK == DROPPED_MASK }

  // ---------- packing and unpacking ----------

  function Pack(r: Word): bv64 {
    (r.readiness as bv64)
    | ((r.interest as bv64) << 4)
    | ((r.opt as bv64) << 8)
    | ((r.rd as bv64) << 12)
    | ((r.wr as bv64) << 14)
    | (if r.queued then 0x1_0000 else 0)
    | (if r.dropped then 0x2_0000 else 0)
  }

  function Unpack(w: bv64): Word {
    Word((w & 15) as bv4, ((w >> 4) & 15) as bv4, ((w >> 8) & 15) as bv4, ((w >> 12) & 3) as bv2,
         ((w >> 14) & 3) as bv2, w & 0x1_0000 != 0, w & 0x2_0000 != 0)
  }

  // The two encodings are inverse: no field overlaps another, none is lost.
  lemma PackUnpack(r: Word, w: bv64)
    ensures Unpack(Pack(r)) == r
    ensures w < 0x4_0000 ==> Pack(Unpack(w)) == w
    ensures Pack(r) < 0x4_0000
  {
  }

  // Equal words are equal records: a compare-exchange on the word is one on the record.
  lemma PackInjective(r: Word, q: Word)
    ensures Pack(r) == Pack(q) <==> r == q
  {
    PackUnpack(r, 0);
    PackUnpack(q, 0);
  }

  // The getters read the fields.
  lemma Getters(r: Word)
    ensures var w := Pack(r);
      && Get(w, MASK_4, READINESS_SHIFT) == r.readiness as bv64
      && Get(w, MASK_4, INTEREST_SHIFT) == r.interest as bv64
      && Get(w, MASK_4, POLL_OPT_SHIFT) == r.opt as bv64
      && Get(w, MASK_2, TOKEN_RD_SHIFT) == r.rd as bv64
      && Get(w, MASK_2, TOKEN_WR_SHIFT) == r.wr as bv64
      && IsQueued(w) == r.queued && IsDropped(w) == r.dropped
  {
  }

  // Each setter changes its own field and no other.
  lemma FieldSetters(r: Word, v: bv4, pos: bv2)
    ensures SetReadiness(Pack(r), v as bv64) == Pack(r.(readiness := v))
    ensures SetInterest(Pack(r), v as bv64) == Pack(r.(interest := v)) && Disarm(Pack(r)) == Pack(r.(interest := 0))
    ensures SetPollOpt(Pack(r), v as bv64) == Pack(r.(opt := v))
    ensures SetTokenWritePos(Pack(r), pos as bv64) == Pack(r.(wr := pos))
    ensures UpdateTokenReadPos(Pack(r)) == Pack(r.(rd := r.wr))
    ensures SetQueued(Pack(r)) == Pack(r.(queued := true)) && SetDequeued(Pack(r)) == Pack(r.(queued := false))
    ensures FlagAsDropped(Pack(r)) == Pack(r.(queued := true, dropped := true))
  {
    ReadinessSetter(r, v);
    InterestSetter(r, v);
    InterestSetter(r, 0);
    PollOptSetter(r, v);
    WritePosSetter(r, pos);
    ReadPosSetter(r);
    QueuedSetter(r);
    DroppedSetter(r);
  }

  lemma ReadinessSetter(r: Word, v: bv4)
    ensures SetReadiness(Pack(r), v as bv64) == Pack(r.(readiness := v))
  {
  }

  lemma InterestSetter(r: Word, v: bv4)
    ensures SetInterest(Pack(r), v as bv64) == Pack(r.(interest := v))
  {
  }

  lemma PollOptSetter(r: Word, v: bv4)
    ensures SetPollOpt(Pack(r), v as bv64) == Pack(r.(opt := v))
  {
  }

  lemma WritePosSetter(r: Word, pos: bv2)
    ensures SetTokenWritePos(Pack(r), pos as bv64) == Pack(r.(wr := pos))
  {
  }

  lemma ReadPosSetter(r: Word)
    ensures UpdateTokenReadPos(Pack(r)) == Pack(r.(rd := r.wr))
  {
  }

  lemma QueuedSetter(r: Word)
    ensures SetQueued(Pack(r)) == Pack(r.(queued := true)) && SetDequeued(Pack(r)) == Pack(r.(queued := false))
  {
  }

  lemma DroppedSetter(r: Word)
    ensures FlagAsDropped(Pack(r)) == Pack(r.(queued := true, dropped := true))
  {
  }

  lemma NewWord(interest: bv4, opt: bv4)
    ensures New(interest as bv64, opt as bv64) == Pack(Word(0, interest, opt, 0, 0, false, false))
  {
  }

  // ---------- values wider than their field ----------

  // set does not mask its argument: what the field itself gets of it.
  function Low4(v: bv64): bv4 { (v & 15) as bv4 }

  // On one word: the rest of the argument may only hit bits that are set already.
  lemma ReadinessSpill(r: Word, v: bv64)
    ensures SetReadiness(Pack(r), v) == Pack(r.(readiness := Low4(v))) <==> (v & !15) & !Pack(r) == 0
  {
  }

  lemma InterestSpill(r: Word, v: bv64)
    ensures SetInterest(Pack(r), v) == Pack(r.(interest := Low4(v))) <==> ((v & !15) << 4) & !Pack(r) == 0
  {
  }

  lemma PollOptSpill(r: Word, v: bv64)
    ensures SetPollOpt(Pack(r), v) == Pack(r.(opt := Low4(v))) <==> ((v & !15) << 8) & !Pack(r) == 0
  {
  }

  /** set_readiness changes its own field and no other, whatever the word, exactly for values of
      at most four bits. */
  lemma ReadinessFits(v: bv64)
    ensures v <= MASK_4 <==> forall r: Word :: SetReadiness(Pack(r), v) == Pack(r.(readiness := Low4(v)))
  {
    forall r: Word ensures v <= MASK_4 ==> SetReadiness(Pack(r), v) == Pack(r.(readiness := Low4(v))) {
      ReadinessSpill(r, v);
    }
    ReadinessSpill(Word(0, 0, 0, 0, 0, false, false), v);
  }

  /** set_interest likewise, for values of at most four bits once what the shift pushes out of the
      machine word is gone. */
  lemma InterestFits(v: bv64)
    ensures v << INTEREST_SHIFT <= MASK_4 << INTEREST_SHIFT
            <==> forall r: Word :: SetInterest(Pack(r), v) == Pack(r.(interest := Low4(v)))
  {
    forall r: Word ensures v << 4 <= 0xF0 ==> SetInterest(Pack(r), v) == Pack(r.(interest := Low4(v))) {
      InterestSpill(r, v);
    }
    InterestSpill(Word(0, 0, 0, 0, 0, false, false), v);
  }

  /** And set_poll_opt. */
  lemma PollOptFits(v: bv64)
    ensures v << POLL_OPT_SHIFT <= MASK_4 << POLL_OPT_SHIFT
            <==> forall r: Word :: SetPollOpt(Pack(r), v) == Pack(r.(opt := Low4(v)))
  {
    forall r: Word ensures v << 8 <= 0xF00 ==> SetPollOpt(Pack(r), v) == Pack(r.(opt := Low4(v))) {
      PollOptSpill(r, v);
    }
    PollOptSpill(Word(0, 0, 0, 0, 0, false, false), v);
  }

  // Two inputs: a readiness of five bits changes the interest, an option of six moves the read
  // position to 3, where next_token_pos has no answer.
  lemma WideValueSpills()
    ensures Unpack(SetReadiness(Pack(Word(0, 0, 0, 0, 0, false, false)), 0x10)).interest == 1
    ensures Unpack(SetPollOpt(Pack(Word(0, 0, 0, 0, 0, false, false)), 0x30)).rd == 3
  {
  }

  // The slot for the next token is neither the one being read nor the one last written.
  lemma NextPosIsFree(r: Word)
    requires r.Positions()
    ensures r.NextPos() < 3 && r.NextPos() != r.rd && r.NextPos() != r.wr
  {
  }
}
