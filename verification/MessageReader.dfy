/** The cursor-based reader of solana/message.go, proved to compute the parser of Wire. */
module MessageReader {
  import opened Basics
  import opened Numbers
  import opened Wire

  /** What the policy sees of a message. */
  datatype ParsedInstruction = ParsedInstruction(programIndex: Byte, data: seq<Byte>)

  datatype Parsed = Parsed(accounts: seq<Address>, instructions: seq<ParsedInstruction>)

  function ProjectInstructions(ixs: seq<Instruction>): (r: seq<ParsedInstruction>)
    ensures |r| == |ixs|
    ensures forall i | 0 <= i < |ixs| :: r[i] == ParsedInstruction(ixs[i].programIndex, ixs[i].data)
  {
    seq(|ixs|, i requires 0 <= i < |ixs| => ParsedInstruction(ixs[i].programIndex, ixs[i].data))
  }

  function Project(m: Message): Parsed { Parsed(m.accounts, ProjectInstructions(m.instructions)) }

  /** After i continuation bytes that sum to val, s is still to be decided. */
  ghost predicate Continued(s: seq<Byte>, i: nat, val: int) {
    && i <= |s| && i <= 2
    && (forall k | 0 <= k < i :: s[k] >= 128)
    && val == (if i == 0 then 0 else if i == 1 then (s[0] as int) - 128
               else (s[0] as int) - 128 + 128 * ((s[1] as int) - 128))
  }

  /** Seven bits in the i-th place. */
  function Weighted(c: nat, i: nat): nat {
    if i == 0 then c else if i == 1 then 128 * c else 16384 * c
  }

  /** Or-ing in the next seven bits is adding them in base 128. */
  lemma OrNext(s: seq<Byte>, i: nat, val: nat, c: Byte)
    requires Continued(s, i, val)
    ensures And(c, 0x80) == 0 <==> c < 128
    ensures Or(val, Shl(And(c, 0x7f), 7 * i)) == val + Weighted(c % 128, i)
    ensures c >= 128 && i < 2 && i < |s| && s[i] == c ==> Continued(s, i + 1, Or(val, Shl(And(c, 0x7f), 7 * i)))
  {
    hide And, Or, Pow, Shl;
    AndHighBit(c);
    ShlIsWeighted(c % 128, i);
    OrIsAdd(val, And(c, 0x7f), 7 * i);
  }

  lemma ShlIsWeighted(x: nat, i: nat)
    requires i <= 2
    ensures Shl(x, 7 * i) == Weighted(x, i)
    ensures Pow(2, 7 * i) == if i == 0 then 1 else if i == 1 then 128 else 16384
  {
    assert Pow(2, 0) == 1 && Pow(2, 7) == 128 && Pow(2, 14) == 16384;
  }

  /** What reading a length off s must return and leave. */
  ghost predicate LenRead(s: seq<Byte>, r: Option<nat>, rest: seq<Byte>) {
    match DecodeLen(s)
    case Some((n, rest')) => r == Some(n) && rest == rest'
    case None => r == None
  }

  /** How one more byte decides the length. */
  lemma LenReadStep(s: seq<Byte>, i: nat, val: nat)
    requires Continued(s, i, val)
    ensures |s| == i ==> LenRead(s, None, s[i..])
    ensures |s| > i && s[i] < 128 ==>
      var v := val + Weighted(s[i], i);
      LenRead(s, if (i > 0 && s[i] == 0) || v > MAX_LEN then None else Some(v), s[i + 1..])
    ensures |s| > i == 2 && s[i] >= 128 ==> LenRead(s, None, s[3..])
  {
  }

  datatype Step = Done(length: Option<nat>) | More(val: nat)

  class Reader {
    const b: seq<Byte>
    var off: nat

    ghost predicate Valid() reads this { off <= |b| }

    ghost function Rest(): seq<Byte>
      requires Valid()
      reads this
    {
      b[off..]
    }

    constructor (bytes: seq<Byte>)
      ensures Valid() && b == bytes && Rest() == bytes
    {
      b, off := bytes, 0;
    }

    method Take(n: int) returns (r: Option<seq<Byte>>)
      requires Valid()
      modifies this
      ensures Valid()
      ensures r.Some? <==> 0 <= n <= |old(Rest())|
      ensures r.Some? ==> TakeN(old(Rest()), n) == Some((r.value, Rest())) && off == old(off) + n
      ensures r.None? ==> off == old(off)
    {
      if n < 0 || |b| - off < n { return None; }
      assert b[off..off + n] == Rest()[..n] && b[off + n..] == Rest()[n..];
      r := Some(b[off..off + n]);
      off := off + n;
    }

    method NextByte() returns (r: Option<Byte>)
      requires Valid()
      modifies this
      ensures Valid()
      ensures r.Some? <==> old(Rest()) != []
      ensures r.Some? ==> r.value == old(Rest())[0] && Rest() == old(Rest())[1..]
      ensures r.Some? <==> old(off) < |b|
      ensures r.Some? ==> r.value == b[old(off)] && off == old(off) + 1
      ensures r.None? ==> off == old(off)
    {
      var t := Take(1);
      if t.None? { return None; }
      r := Some(t.value[0]);
    }

    /** One round: or in seven more bits, and stop at a byte without the continuation bit. */
    method Round(ghost s: seq<Byte>, i: nat, val: nat, shift: nat) returns (r: Step)
      requires Valid() && Continued(s, i, val) && shift == 7 * i && Rest() == s[i..]
      modifies this
      ensures Valid()
      ensures r.Done? ==> LenRead(s, r.length, Rest())
      ensures r.More? ==> i < |s| && Rest() == s[i + 1..]
      ensures r.More? ==> if i < 2 then Continued(s, i + 1, r.val) else LenRead(s, None, Rest())
    {
      hide DecodeLen, And, Or, Shl, LenRead, Weighted;
      LenReadStep(s, i, val);
      var next := NextByte();
      if next.None? { return Done(None); }
      var c := next.value;
      assert c == s[i] && Rest() == s[i + 1..];
      OrNext(s, i, val, c);
      var v := Or(val, Shl(And(c, 0x7f), shift));
      if And(c, 0x80) != 0 { return More(v); }
      if i > 0 && c == 0 { return Done(None); }
      if v > 0xffff { return Done(None); }
      return Done(Some(v));
    }

    /** At most three rounds; overlong, oversized and unterminated lengths are refused. */
    method CompactU16() returns (r: Option<nat>)
      requires Valid()
      modifies this
      ensures Valid()
      ensures LenRead(old(Rest()), r, Rest())
    {
      ghost var s := Rest();
      assert Continued(s, 0, 0);
      hide DecodeLen, Continued, LenRead;
      var val, shift: nat := 0, 0;
      var i := 0;
      while i < 3
        invariant 0 <= i <= 3 && i <= |s| && shift == 7 * i
        invariant Valid() && Rest() == s[i..]
        invariant if i <= 2 then Continued(s, i, val) else LenRead(s, None, Rest())
      {
        var step := Round(s, i, val, shift);
        if step.Done? { return step.length; }
        val := step.val;
        shift := shift + 7;
        i := i + 1;
      }
      return None;
    }
  }

  /** The account loop. */
  method ReadAddresses(r: Reader, n: nat) returns (a: Option<seq<Address>>)
    requires r.Valid()
    modifies r
    ensures r.Valid()
    ensures match ParseAddresses(old(r.Rest()), n)
            case Some((xs, rest)) => a == Some(xs) && r.Rest() == rest
            case None => a == None
  {
    ghost var s := r.Rest();
    var out: seq<Address> := [];
    assert forall xs: seq<Address> :: out + xs == xs;
    var i := 0;
    while i < n
      invariant 0 <= i <= n && r.Valid()
      invariant ParseAddresses(s, n) == match ParseAddresses(r.Rest(), n - i)
                                        case Some((xs, rest)) => Some((out + xs, rest))
                                        case None => None
    {
      ghost var here, before := r.Rest(), out;
      var t := r.Take(ADDR_LEN);
      if t.None? { return None; }
      out := out + [t.value];
      assert forall xs: seq<Address> :: out + xs == before + ([t.value] + xs);
      i := i + 1;
    }
    assert out + [] == out;
    return Some(out);
  }

  /** One instruction; its account indexes are skipped. */
  method ReadInstruction(r: Reader) returns (ix: Option<ParsedInstruction>)
    requires r.Valid()
    modifies r
    ensures r.Valid()
    ensures match ParseInstruction(old(r.Rest()))
            case Some((i, rest)) => ix == Some(ParsedInstruction(i.programIndex, i.data)) && r.Rest() == rest
            case None => ix == None
  {
    hide DecodeLen;
    var p := r.NextByte();
    if p.None? { return None; }
    var nAccts := r.CompactU16();
    if nAccts.None? { return None; }
    var accts := r.Take(nAccts.value);
    if accts.None? { return None; }
    var nData := r.CompactU16();
    if nData.None? { return None; }
    var data := r.Take(nData.value);
    if data.None? { return None; }
    return Some(ParsedInstruction(p.value, data.value));
  }

  /** The instruction loop. */
  method ReadInstructions(r: Reader, n: nat) returns (ixs: Option<seq<ParsedInstruction>>)
    requires r.Valid()
    modifies r
    ensures r.Valid()
    ensures match ParseInstructions(old(r.Rest()), n)
            case Some((xs, rest)) => ixs == Some(ProjectInstructions(xs)) && r.Rest() == rest
            case None => ixs == None
  {
    hide ParseInstruction;
    ghost var s := r.Rest();
    ghost var full: seq<Instruction> := [];
    assert forall xs: seq<Instruction> :: full + xs == xs;
    var out: seq<ParsedInstruction> := [];
    var i := 0;
    while i < n
      invariant 0 <= i <= n && r.Valid()
      invariant out == ProjectInstructions(full)
      invariant ParseInstructions(s, n) == match ParseInstructions(r.Rest(), n - i)
                                           case Some((xs, rest)) => Some((full + xs, rest))
                                           case None => None
    {
      ghost var here, before := r.Rest(), full;
      var ix := ReadInstruction(r);
      if ix.None? { return None; }
      ghost var x := ParseInstruction(here).value.0;
      full := full + [x];
      assert forall xs: seq<Instruction> :: full + xs == before + ([x] + xs);
      out := out + [ix.value];
      i := i + 1;
    }
    assert full + [] == full;
    return Some(out);
  }

  /** From the account count to the last instruction. */
  method ReadBody(r: Reader) returns (m: Option<Parsed>)
    requires r.Valid()
    modifies r
    ensures r.Valid()
    ensures match ParseBody(old(r.Rest()))
            case Some((accounts, _, ixs, rest)) => m == Some(Parsed(accounts, ProjectInstructions(ixs)))
              && r.Rest() == rest
            case None => m == None
  {
    hide DecodeLen, ParseAddresses, ParseInstructions;
    var nAccounts := r.CompactU16();
    if nAccounts.None? { return None; }
    var accounts := ReadAddresses(r, nAccounts.value);
    if accounts.None? { return None; }
    var blockhash := r.Take(ADDR_LEN);
    if blockhash.None? { return None; }
    var nIxs := r.CompactU16();
    if nIxs.None? { return None; }
    var ixs := ReadInstructions(r, nIxs.value);
    if ixs.None? { return None; }
    return Some(Parsed(accounts.value, ixs.value));
  }

  function ParsedOf(t: Option<Message>): Option<Parsed> {
    match t case Some(m) => Some(Project(m)) case None => None
  }

  function WithoutRest(body: Option<(seq<Address>, Address, seq<Instruction>, seq<Byte>)>): Option<Parsed> {
    match body
    case Some((accounts, _, ixs, rest)) => if rest == [] then Some(Parsed(accounts, ProjectInstructions(ixs))) else None
    case None => None
  }

  /** The parse of a payload from the parse of what follows its header. */
  lemma ParsedFromBody(b: seq<Byte>)
    requires b != []
    ensures b[0] >= 128 || |b| < 3 ==> ParseTree(b) == None
    ensures b[0] < 128 && |b| >= 3 ==> ParsedOf(ParseTree(b)) == WithoutRest(ParseBody(b[3..]))
  {
    hide ParseBody, ProjectInstructions;
  }

  /** parseMessage: empty and versioned payloads are refused, and so is anything left over. */
  method ParseMessage(b: seq<Byte>) returns (m: Option<Parsed>)
    ensures m == ParsedOf(ParseTree(b))
  {
    if |b| == 0 { return None; }
    ParsedFromBody(b);
    hide And, ParseBody, ParseTree, ProjectInstructions;
    var r := new Reader(b);
    AndHighBit(b[0]);
    if And(b[0], 0x80) != 0 { return None; }
    var header := r.Take(3);
    if header.None? { return None; }
    m := ReadBody(r);
    if m.Some? && |r.b| - r.off != 0 { return None; }
  }
}
