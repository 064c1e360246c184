/** The alphabets base 58 is written in, and that the XRP Ledger's is one of them. */
module Letters58 {

  /** 58 different letters; everything proved of base 58 holds for any such choice. */
  type Alphabet = a: string | |a| == 58 && forall i, j :: 0 <= i < j < 58 ==> a[i] != a[j]
    witness (XrplDistinct(); XRPL_LETTERS)

  const XRPL_LETTERS := ("rpshnaf3" + "9wBUDNEG") + ("HJKLM4PQ" + "RST7VWXY") + (("Z2bcdeCg" + "65jkm8oF") + "qi1tuvAxyz")

  /** The alphabet of the ledger's addresses. */
  const XRPL: Alphabet := (XrplDistinct(); XRPL_LETTERS)

  lemma XrplDistinct()
    ensures |XRPL_LETTERS| == 58
    ensures forall i, j :: 0 <= i < j < 58 ==> XRPL_LETTERS[i] != XRPL_LETTERS[j]
  {
    forall i, j | 0 <= i < j < 58 ensures XRPL_LETTERS[i] != XRPL_LETTERS[j] {
      LetterRank(i);
      LetterRank(j);
    }
  }

  /** Position of each letter, spelled out. */
  function Rank(c: char): int {
    match c
    case 'r' => 0 case 'p' => 1 case 's' => 2 case 'h' => 3 case 'n' => 4 case 'a' => 5
    case 'f' => 6 case '3' => 7 case '9' => 8 case 'w' => 9 case 'B' => 10 case 'U' => 11
    case 'D' => 12 case 'N' => 13 case 'E' => 14 case 'G' => 15 case 'H' => 16 case 'J' => 17
    case 'K' => 18 case 'L' => 19 case 'M' => 20 case '4' => 21 case 'P' => 22 case 'Q' => 23
    case 'R' => 24 case 'S' => 25 case 'T' => 26 case '7' => 27 case 'V' => 28 case 'W' => 29
    case 'X' => 30 case 'Y' => 31 case 'Z' => 32 case '2' => 33 case 'b' => 34 case 'c' => 35
    case 'd' => 36 case 'e' => 37 case 'C' => 38 case 'g' => 39 case '6' => 40 case '5' => 41
    case 'j' => 42 case 'k' => 43 case 'm' => 44 case '8' => 45 case 'o' => 46 case 'F' => 47
    case 'q' => 48 case 'i' => 49 case '1' => 50 case 't' => 51 case 'u' => 52 case 'v' => 53
    case 'A' => 54 case 'x' => 55 case 'y' => 56 case 'z' => 57
    case _ => -1
  }

  lemma LetterRank(k: nat)
    requires k < 58
    ensures Rank(XRPL_LETTERS[k]) == k
  {
    if k < 30 {
      LowRank(k);
    } else {
      HighRank(k);
    }
  }

  lemma LowRank(k: nat)
    requires k < 30
    ensures Rank(XRPL_LETTERS[k]) == k
  {
    match k
    case 0 => case 1 => case 2 => case 3 => case 4 => case 5 => case 6 => case 7 => case 8 => case 9 =>
    case 10 => case 11 => case 12 => case 13 => case 14 => case 15 => case 16 => case 17 => case 18 => case 19 =>
    case 20 => case 21 => case 22 => case 23 => case 24 => case 25 => case 26 => case 27 => case 28 => case 29 =>
  }

  lemma HighRank(k: nat)
    requires 30 <= k < 58
    ensures Rank(XRPL_LETTERS[k]) == k
  {
    match k
    case 30 => case 31 => case 32 => case 33 => case 34 => case 35 => case 36 => case 37 => case 38 => case 39 =>
    case 40 => case 41 => case 42 => case 43 => case 44 => case 45 => case 46 => case 47 => case 48 => case 49 =>
    case 50 => case 51 => case 52 => case 53 => case 54 => case 55 => case 56 => case 57 =>
  }
}
