/** The legacy Solana message on the wire (solana/message.go): the full message tree with its
    printer, and the parser as a function. */
module Wire {
  import opened Basics

  // ----- message trees and their printed form

  datatype Instruction = Instruction(programIndex: Byte, accountIndexes: seq<Byte>, data: seq<Byte>)

  datatype Message = Message(
    header: seq<Byte>, accounts: seq<Address>, blockhash: Address, instructions: seq<Instruction>)

  const MAX_LEN: nat := 0xffff

  predicate WellFormedInstruction(ix: Instruction) {
    |ix.accountIndexes| <= MAX_LEN && |ix.data| <= MAX_LEN
  }

  /** A legacy message: the high bit of the first header byte is clear. */
  predicate WellFormed(m: Message) {
    && |m.header| == 3 && m.header[0] < 128
    && |m.accounts| <= MAX_LEN && |m.instructions| <= MAX_LEN
    && forall i | 0 <= i < |m.instructions| :: WellFormedInstruction(m.instructions[i])
  }

  /** Solana's ShortVec length: seven bits to a byte, least significant first, the high bit
      marking continuation. */
  function ShortVec(n: nat): seq<Byte> {
    if n < 128 then [n] else [n % 128 + 128] + ShortVec(n / 128)
  }

  function PrintAddresses(a: seq<Address>): seq<Byte> {
    if a == [] then [] else a[0] + PrintAddresses(a[1..])
  }

  function PrintInstruction(ix: Instruction): seq<Byte> {
    [ix.programIndex] + ShortVec(|ix.accountIndexes|) + ix.accountIndexes + ShortVec(|ix.data|) + ix.data
  }

  function PrintInstructions(ixs: seq<Instruction>): seq<Byte> {
    if ixs == [] then [] else PrintInstruction(ixs[0]) + PrintInstructions(ixs[1..])
  }

  function PrintMessage(m: Message): seq<Byte> {
    m.header + ShortVec(|m.accounts|) + PrintAddresses(m.accounts) + m.blockhash
    + ShortVec(|m.instructions|) + PrintInstructions(m.instructions)
  }

  // ----- the parser, on the bytes not yet read

  function TakeN(s: seq<Byte>, n: nat): Option<(seq<Byte>, seq<Byte>)> {
    if n <= |s| then Some((s[..n], s[n..])) else None
  }

  function DecodeLen(s: seq<Byte>): Option<(nat, seq<Byte>)> {
    if s == [] then None
    else if s[0] < 128 then Some((s[0], s[1..]))
    else if |s| == 1 then None
    else var two: int := (s[0] as int) - 128 + 128 * (s[1] as int);
      if s[1] < 128 then (if s[1] == 0 then None else Some((two, s[2..])))
      else if |s| == 2 then None
      else var three: int := (s[0] as int) - 128 + 128 * ((s[1] as int) - 128) + 16384 * (s[2] as int);
        if s[2] < 128 && s[2] != 0 && three <= MAX_LEN then Some((three, s[3..])) else None
  }

  function ParseAddresses(s: seq<Byte>, n: nat): Option<(seq<Address>, seq<Byte>)> {
    if n == 0 then Some(([], s))
    else
      var (a, s1) :- TakeN(s, ADDR_LEN);
      var (rest, s2) :- ParseAddresses(s1, n - 1);
      Some(([a] + rest, s2))
  }

  function ParseInstruction(s: seq<Byte>): Option<(Instruction, seq<Byte>)> {
    var (p, s1) :- TakeN(s, 1);
    var (nAccts, s2) :- DecodeLen(s1);
    var (accts, s3) :- TakeN(s2, nAccts);
    var (nData, s4) :- DecodeLen(s3);
    var (data, s5) :- TakeN(s4, nData);
    Some((Instruction(p[0], accts, data), s5))
  }

  function ParseInstructions(s: seq<Byte>, n: nat): Option<(seq<Instruction>, seq<Byte>)> {
    if n == 0 then Some(([], s))
    else
      var (ix, s1) :- ParseInstruction(s);
      var (rest, s2) :- ParseInstructions(s1, n - 1);
      Some(([ix] + rest, s2))
  }

  function ParseBody(s: seq<Byte>): Option<(seq<Address>, Address, seq<Instruction>, seq<Byte>)> {
    var (nAccounts, s1) :- DecodeLen(s);
    var (accounts, s2) :- ParseAddresses(s1, nAccounts);
    var (blockhash, s3) :- TakeN(s2, ADDR_LEN);
    var (nIxs, s4) :- DecodeLen(s3);
    var (ixs, s5) :- ParseInstructions(s4, nIxs);
    Some((accounts, blockhash, ixs, s5))
  }

  function ParseTree(b: seq<Byte>): Option<Message> {
    if b == [] || b[0] >= 128 then None
    else
      var (header, s1) :- TakeN(b, 3);
      var (accounts, blockhash, ixs, rest) :- ParseBody(s1);
      if rest != [] then None else Some(Message(header, accounts, blockhash, ixs))
  }

  // ----- compact lengths are exactly the canonical encodings

  lemma ShortVecCases(n: nat)
    requires n <= MAX_LEN
    ensures n < 128 ==> ShortVec(n) == [n]
    ensures 128 <= n < 16384 ==> ShortVec(n) == [n % 128 + 128, n / 128]
    ensures 16384 <= n ==> ShortVec(n) == [n % 128 + 128, n / 128 % 128 + 128, n / 16384]
  {
    assert n / 128 / 128 == n / 16384;
  }

  lemma DecodeLenOfShortVec(n: nat, rest: seq<Byte>)
    requires n <= MAX_LEN
    ensures DecodeLen(ShortVec(n) + rest) == Some((n, rest))
  {
    hide DecodeLen, ShortVec;
    ShortVecCases(n);
    if n < 128 {
      DecodeOne(n, rest);
    } else if n < 16384 {
      DecodeTwo(n % 128 + 128, n / 128, rest);
    } else {
      DecodeThree(n % 128 + 128, n / 128 % 128 + 128, n / 16384, rest);
      assert n == n % 128 + 128 * (n / 128 % 128) + 16384 * (n / 16384);
    }
  }

  lemma DecodeOne(a: Byte, rest: seq<Byte>)
    requires a < 128
    ensures DecodeLen([a] + rest) == Some((a as int, rest))
  {
    assert ([a] + rest)[1..] == rest;
  }

  lemma DecodeTwo(a: Byte, b: Byte, rest: seq<Byte>)
    requires a >= 128 && 0 < b < 128
    ensures DecodeLen([a, b] + rest) == Some(((a as int) - 128 + 128 * (b as int), rest))
  {
    var s := [a, b] + rest;
    assert s[0] == a && s[1] == b && s[2..] == rest;
  }

  lemma DecodeThree(a: Byte, b: Byte, c: Byte, rest: seq<Byte>)
    requires a >= 128 && b >= 128 && 0 < c < 128
    requires (a as int) - 128 + 128 * ((b as int) - 128) + 16384 * (c as int) <= MAX_LEN
    ensures DecodeLen([a, b, c] + rest)
         == Some(((a as int) - 128 + 128 * ((b as int) - 128) + 16384 * (c as int), rest))
  {
    var s := [a, b, c] + rest;
    assert s[0] == a && s[1] == b && s[2] == c && s[3..] == rest;
  }

  lemma DecodeLenSound(s: seq<Byte>)
    requires DecodeLen(s).Some?
    ensures var (n, rest) := DecodeLen(s).value; n <= MAX_LEN && s == ShortVec(n) + rest
  {
    var (n, rest) := DecodeLen(s).value;
    if s[0] < 128 {
      ShortVecCases(n);
      assert s == [s[0]] + rest;
    } else if s[1] < 128 {
      assert n % 128 == s[0] - 128 && n / 128 == s[1];
      ShortVecCases(n);
      assert s == [s[0], s[1]] + rest;
    } else {
      assert n % 128 == s[0] - 128 && n / 128 == (s[1] as int) - 128 + 128 * (s[2] as int);
      assert n / 128 % 128 == s[1] - 128 && n / 16384 == s[2];
      ShortVecCases(n);
      assert s == [s[0], s[1], s[2]] + rest;
    }
  }

  /** A length is read exactly when the input starts with the shortest encoding of some number
      up to 65535; that number is returned and exactly those bytes are consumed. */
  lemma DecodeLenExact(s: seq<Byte>, n: nat, rest: seq<Byte>)
    ensures DecodeLen(s) == Some((n, rest)) <==> n <= MAX_LEN && s == ShortVec(n) + rest
  {
    if DecodeLen(s) == Some((n, rest)) { DecodeLenSound(s); }
    if n <= MAX_LEN && s == ShortVec(n) + rest { DecodeLenOfShortVec(n, rest); }
  }

  /** No encoding is a prefix of another. */
  lemma ShortVecPrefixFree(m: nat, n: nat)
    requires m <= MAX_LEN && n <= MAX_LEN && ShortVec(m) <= ShortVec(n)
    ensures m == n
  {
    var rest := ShortVec(n)[|ShortVec(m)|..];
    assert ShortVec(n) == ShortVec(m) + rest == ShortVec(n) + [];
    DecodeLenOfShortVec(m, rest);
    DecodeLenOfShortVec(n, []);
  }

  // ----- printing then parsing

  lemma TakeNOf(a: seq<Byte>, rest: seq<Byte>)
    ensures TakeN(a + rest, |a|) == Some((a, rest))
  {
    assert (a + rest)[..|a|] == a && (a + rest)[|a|..] == rest;
  }

  lemma {:induction false} ParseAddressesOf(a: seq<Address>, rest: seq<Byte>)
    ensures ParseAddresses(PrintAddresses(a) + rest, |a|) == Some((a, rest))
  {
    if a == [] {
      assert PrintAddresses(a) + rest == rest;
    } else {
      ParseAddressesOf(a[1..], rest);
      TakeNOf(a[0], PrintAddresses(a[1..]) + rest);
      assert PrintAddresses(a) + rest == a[0] + (PrintAddresses(a[1..]) + rest);
      assert a == [a[0]] + a[1..];
    }
  }

  lemma ParseInstructionOf(ix: Instruction, rest: seq<Byte>)
    requires WellFormedInstruction(ix)
    ensures ParseInstruction(PrintInstruction(ix) + rest) == Some((ix, rest))
  {
    hide DecodeLen, ShortVec;
    var s4 := ix.data + rest;
    var s3 := ShortVec(|ix.data|) + s4;
    var s2 := ix.accountIndexes + s3;
    var s1 := ShortVec(|ix.accountIndexes|) + s2;
    TakeNOf(ix.data, rest);
    DecodeLenOfShortVec(|ix.data|, s4);
    TakeNOf(ix.accountIndexes, s3);
    DecodeLenOfShortVec(|ix.accountIndexes|, s2);
    TakeNOf([ix.programIndex], s1);
    assert PrintInstruction(ix) + rest == [ix.programIndex] + s1;
  }

  lemma {:induction false} ParseInstructionsOf(ixs: seq<Instruction>, rest: seq<Byte>)
    requires forall i | 0 <= i < |ixs| :: WellFormedInstruction(ixs[i])
    ensures ParseInstructions(PrintInstructions(ixs) + rest, |ixs|) == Some((ixs, rest))
  {
    if ixs == [] {
      assert PrintInstructions(ixs) + rest == rest;
    } else {
      ParseInstructionsOf(ixs[1..], rest);
      ParseInstructionOf(ixs[0], PrintInstructions(ixs[1..]) + rest);
      assert PrintInstructions(ixs) + rest == PrintInstruction(ixs[0]) + (PrintInstructions(ixs[1..]) + rest);
      assert ixs == [ixs[0]] + ixs[1..];
    }
  }

  lemma ParseTreeOfPrint(m: Message)
    requires WellFormed(m)
    ensures ParseTree(PrintMessage(m)) == Some(m)
  {
    hide DecodeLen, ShortVec;
    var s4 := PrintInstructions(m.instructions);
    var s3 := ShortVec(|m.instructions|) + s4;
    var s2 := m.blockhash + s3;
    var s1 := PrintAddresses(m.accounts) + s2;
    var s0 := ShortVec(|m.accounts|) + s1;
    ParseInstructionsOf(m.instructions, []);
    assert s4 + [] == s4;
    DecodeLenOfShortVec(|m.instructions|, s4);
    TakeNOf(m.blockhash, s3);
    ParseAddressesOf(m.accounts, s2);
    DecodeLenOfShortVec(|m.accounts|, s1);
    TakeNOf(m.header, s0);
    assert PrintMessage(m) == m.header + s0;
  }

  // ----- parsing then printing

  lemma TakeNSound(s: seq<Byte>, n: nat)
    requires TakeN(s, n).Some?
    ensures var (a, rest) := TakeN(s, n).value; |a| == n && s == a + rest
  {
  }

  lemma {:induction false} ParseAddressesSound(s: seq<Byte>, n: nat)
    requires ParseAddresses(s, n).Some?
    ensures var (a, rest) := ParseAddresses(s, n).value; |a| == n && s == PrintAddresses(a) + rest
  {
    var (a, rest) := ParseAddresses(s, n).value;
    if n > 0 {
      var s1 := s[ADDR_LEN..];
      ParseAddressesSound(s1, n - 1);
      assert a[1..] == ParseAddresses(s1, n - 1).value.0;
      assert s == a[0] + (PrintAddresses(a[1..]) + rest);
    }
  }

  lemma ParseInstructionSound(s: seq<Byte>)
    requires ParseInstruction(s).Some?
    ensures var (ix, rest) := ParseInstruction(s).value;
      WellFormedInstruction(ix) && s == PrintInstruction(ix) + rest
  {
    hide DecodeLen, ShortVec;
    var (ix, rest) := ParseInstruction(s).value;
    var s1 := s[1..];
    var (nAccts, s2) := DecodeLen(s1).value;
    var s3 := s2[nAccts..];
    DecodeLenSound(s1);
    DecodeLenSound(s3);
    var s4 := DecodeLen(s3).value.1;
    assert s == [ix.programIndex] + s1;
    assert s1 == ShortVec(nAccts) + (ix.accountIndexes + s3);
    assert s3 == ShortVec(|ix.data|) + s4 && s4 == ix.data + rest;
    assert s == PrintInstruction(ix) + rest;
  }

  lemma {:induction false} ParseInstructionsSound(s: seq<Byte>, n: nat)
    requires ParseInstructions(s, n).Some?
    ensures var (ixs, rest) := ParseInstructions(s, n).value;
      && |ixs| == n && s == PrintInstructions(ixs) + rest
      && forall i | 0 <= i < |ixs| :: WellFormedInstruction(ixs[i])
    decreases n
  {
    hide ParseInstruction, PrintInstruction;
    var (ixs, rest) := ParseInstructions(s, n).value;
    if n > 0 {
      ParseInstructionSound(s);
      var (ix, s1) := ParseInstruction(s).value;
      ParseInstructionsSound(s1, n - 1);
      assert ixs[1..] == ParseInstructions(s1, n - 1).value.0;
      assert s == PrintInstruction(ix) + (PrintInstructions(ixs[1..]) + rest);
    }
  }

  lemma ParseBodySound(s: seq<Byte>)
    requires ParseBody(s).Some?
    ensures var (accounts, blockhash, ixs, rest) := ParseBody(s).value;
      && |accounts| <= MAX_LEN && |ixs| <= MAX_LEN
      && (forall i | 0 <= i < |ixs| :: WellFormedInstruction(ixs[i]))
      && s == ShortVec(|accounts|) + PrintAddresses(accounts) + blockhash
              + ShortVec(|ixs|) + PrintInstructions(ixs) + rest
  {
    hide DecodeLen, ShortVec;
    var (accounts, blockhash, ixs, rest) := ParseBody(s).value;
    DecodeLenSound(s);
    var (nAccounts, s1) := DecodeLen(s).value;
    ParseAddressesSound(s1, nAccounts);
    var s2 := ParseAddresses(s1, nAccounts).value.1;
    TakeNSound(s2, ADDR_LEN);
    var s3 := s2[ADDR_LEN..];
    DecodeLenSound(s3);
    var (nIxs, s4) := DecodeLen(s3).value;
    ParseInstructionsSound(s4, nIxs);
    Assoc(ShortVec(nAccounts), PrintAddresses(accounts), blockhash, ShortVec(nIxs), PrintInstructions(ixs), rest);
  }

  lemma Assoc(a: seq<Byte>, b: seq<Byte>, c: seq<Byte>, d: seq<Byte>, e: seq<Byte>, f: seq<Byte>)
    ensures a + (b + (c + (d + (e + f)))) == a + b + c + d + e + f
  {
  }

  lemma ParseTreeSound(b: seq<Byte>)
    requires ParseTree(b).Some?
    ensures var m := ParseTree(b).value; WellFormed(m) && b == PrintMessage(m)
  {
    hide ParseBody, ShortVec, PrintAddresses, PrintInstructions, WellFormedInstruction;
    var m := ParseTree(b).value;
    var s := b[3..];
    ParseBodySound(s);
    assert b == m.header + s;
    var (accounts, blockhash, ixs, rest) := ParseBody(s).value;
    Assoc(m.header, ShortVec(|accounts|), PrintAddresses(accounts), blockhash, ShortVec(|ixs|), PrintInstructions(ixs));
    var t := ShortVec(|accounts|) + PrintAddresses(accounts) + blockhash + ShortVec(|ixs|) + PrintInstructions(ixs);
    assert s == t + rest == t;
    assert b == m.header + t == PrintMessage(m);
  }

  /** The parser accepts exactly the printed forms of well-formed legacy messages, and gives
      back the message that was printed. */
  lemma ParseTreeExact(b: seq<Byte>, m: Message)
    ensures ParseTree(b) == Some(m) <==> WellFormed(m) && b == PrintMessage(m)
  {
    hide ParseTree, PrintMessage;
    if WellFormed(m) && b == PrintMessage(m) { ParseTreeOfPrint(m); }
    if ParseTree(b) == Some(m) { ParseTreeSound(b); }
  }

  /** No payload is the printed form of two messages. */
  lemma PrintInjective(m: Message, m': Message)
    requires WellFormed(m) && WellFormed(m') && PrintMessage(m) == PrintMessage(m')
    ensures m == m'
  {
    ParseTreeOfPrint(m);
    ParseTreeOfPrint(m');
  }

  // ----- where everything is

  lemma {:induction false} AddressesAt(a: seq<Address>, i: nat)
    requires i < |a|
    ensures |PrintAddresses(a)| == 32 * |a| && PrintAddresses(a)[32 * i..32 * i + 32] == a[i]
  {
    if |a| > 1 {
      AddressesAt(a[1..], if i == 0 then 0 else i - 1);
    }
    var rest := PrintAddresses(a[1..]);
    if i > 0 { assert PrintAddresses(a)[32 * i..32 * i + 32] == rest[32 * (i - 1)..32 * (i - 1) + 32]; }
  }

  lemma AddressesLength(a: seq<Address>)
    ensures |PrintAddresses(a)| == 32 * |a|
  {
    if a != [] { AddressesAt(a, 0); }
  }

  /** The printed message by position: three header bytes, the account count, 32 bytes an account, 32
      bytes of blockhash, the instruction count, the instructions. */
  lemma MessageLayout(m: Message, i: nat)
    requires |m.header| == 3 && i < |m.accounts|
    ensures var b := PrintMessage(m);
      var at := 3 + |ShortVec(|m.accounts|)|;
      var end := at + 32 * |m.accounts|;
      && |b| >= end + 32 && b[..3] == m.header && b[3..at] == ShortVec(|m.accounts|)
      && b[at + 32 * i..at + 32 * i + 32] == m.accounts[i] && b[end..end + 32] == m.blockhash
      && b[end + 32..] == ShortVec(|m.instructions|) + PrintInstructions(m.instructions)
  {
    hide ShortVec, PrintAddresses, PrintInstructions;
    var b, n, a := PrintMessage(m), ShortVec(|m.accounts|), PrintAddresses(m.accounts);
    var tail := ShortVec(|m.instructions|) + PrintInstructions(m.instructions);
    AddressesAt(m.accounts, i);
    assert b == m.header + n + a + m.blockhash + tail;
    assert b[3 + |n|..3 + |n| + |a|] == a;
    assert b[3 + |n| + 32 * i..3 + |n| + 32 * i + 32] == a[32 * i..32 * i + 32];
  }

  /** One instruction by position: the program index, the account indexes, the data. */
  lemma InstructionLayout(ix: Instruction)
    ensures var b := PrintInstruction(ix);
      var n, d := |ShortVec(|ix.accountIndexes|)|, |ShortVec(|ix.data|)|;
      var k := 1 + n + |ix.accountIndexes|;
      && |b| == k + d + |ix.data| && b[0] == ix.programIndex && b[1..1 + n] == ShortVec(|ix.accountIndexes|)
      && b[1 + n..k] == ix.accountIndexes && b[k..k + d] == ShortVec(|ix.data|) && b[k + d..] == ix.data
  {
    hide ShortVec;
  }
}
