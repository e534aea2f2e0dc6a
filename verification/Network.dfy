/** Which cluster an engine runs against (token/network.go). */
module Network {
  /** A cluster name; any string may be given by a caller. */
  type Network = string

  const MAINNET: Network := "mainnet"
  const DEVNET: Network := "devnet"
  const TESTNET: Network := "testnet"
  const LOCALNET: Network := "localnet"

  const MAINNET_GENESIS: string := "5eykt4UsFv8P8NJdTREpY1vzqKqZKvdpKuc147dw2N9d"
  const DEVNET_GENESIS: string := "EtWTRABZaYq6iMfeYKouRu166VU2xqa1wcaWoxPkrZBG"
  const TESTNET_GENESIS: string := "4uhcVJyU9pJkvQyS88uRDiswHXSCkY3zQawwpjk2NsNY"

  /** Everything but the three known test clusters carries real value. */
  predicate Live(n: Network) { n != DEVNET && n != TESTNET && n != LOCALNET }

  /** Unicode white space. */
  predicate IsSpace(c: char) {
    || c == ' ' || '\t' <= c <= '\r' || c == '\U{85}' || c == '\U{a0}' || c == '\U{1680}'
    || '\U{2000}' <= c <= '\U{200a}' || c == '\U{2028}' || c == '\U{2029}' || c == '\U{202f}'
    || c == '\U{205f}' || c == '\U{3000}'
  }

  function TrimSpace(s: string): string
    decreases |s|
  {
    if s != [] && IsSpace(s[0]) then TrimSpace(s[1..])
    else if s != [] && IsSpace(s[|s| - 1]) then TrimSpace(s[..|s| - 1])
    else s
  }

  function ClassifyGenesis(hash: string): Network {
    var h := TrimSpace(hash);
    if h == DEVNET_GENESIS then DEVNET
    else if h == TESTNET_GENESIS then TESTNET
    else MAINNET
  }

  predicate TestCluster(hash: string) { TrimSpace(hash) == DEVNET_GENESIS || TrimSpace(hash) == TESTNET_GENESIS }

  /** Trimming leaves the part between the first and the last character that is not white space. */
  lemma {:induction false} TrimSpaceExact(s: string) returns (i: nat, j: nat)
    ensures i <= j <= |s| && TrimSpace(s) == s[i..j]
    ensures forall k | 0 <= k < i || j <= k < |s| :: IsSpace(s[k])
    ensures i < j ==> !IsSpace(s[i]) && !IsSpace(s[j - 1])
    ensures s != [] && !IsSpace(s[0]) && !IsSpace(s[|s| - 1]) ==> i == 0 && j == |s|
    decreases |s|
  {
    if s != [] && IsSpace(s[0]) {
      i, j := TrimSpaceExact(s[1..]);
      assert s[1..][i..j] == s[i + 1..j + 1];
      i, j := i + 1, j + 1;
    } else if s != [] && IsSpace(s[|s| - 1]) {
      i, j := TrimSpaceExact(s[..|s| - 1]);
      assert s[..|s| - 1][i..j] == s[i..j];
    } else {
      i, j := 0, |s|;
      assert s[0..|s|] == s;
    }
  }

  /** The named networks; anything else, the empty name included, is live. */
  lemma LiveNames(n: string)
    ensures Live(n) <==> !(n == "devnet" || n == "testnet" || n == "localnet")
    ensures Live("") && Live("mainnet")
  {
    assert |"mainnet"| == 7 && |"devnet"| == 6 && |"localnet"| == 8 && "testnet"[0] == 't' && "mainnet"[0] == 'm';
  }

  /** Only the genesis hash of devnet or testnet relaxes anything, and each names its own cluster. */
  lemma RelaxedOnlyByTestGenesis(hash: string)
    ensures ClassifyGenesis(hash) == DEVNET <==> TrimSpace(hash) == DEVNET_GENESIS
    ensures ClassifyGenesis(hash) == TESTNET <==> TrimSpace(hash) == TESTNET_GENESIS
    ensures Live(ClassifyGenesis(hash)) <==> !TestCluster(hash)
  {
    assert DEVNET != MAINNET && TESTNET != MAINNET && DEVNET != TESTNET by {
      assert |DEVNET| == 6 && |TESTNET| == 7 && DEVNET[0] == 'd' && TESTNET[0] == 't' && MAINNET[0] == 'm';
    }
    assert DEVNET_GENESIS[0] == 'E' && TESTNET_GENESIS[0] == '4';
    assert LOCALNET != MAINNET by { assert |LOCALNET| == 8 && |MAINNET| == 7; }
  }
}
