/** What every component shares: the status codes, bytes, bounded C strings. */
module Common {

  /** The SDK's status codes (only those the modelled functions return). */
  datatype Status =
    | Ok
    | InvalidArg
    | NoMemory
    | Encoding
    | Transport
    | NotConnected
    | Protocol
    | Timeout
    | BufferTooSmall
    | State
    | Crypto
    | NoRoomKey

  datatype Option<+T> = None | Some(value: T)

  type byte = x: nat | x < 256

  const NUL: char := '\0'

  /** The C string held in a buffer of `size` bytes: shorter than the buffer, no NUL inside. */
  predicate FitsBuffer(s: string, size: nat) {
    |s| < size && NUL !in s
  }

  /** `evergram_copy_bounded` and `snprintf("%s")`: at most `size - 1` characters survive. */
  function CopyBounded(size: nat, s: string): (r: string)
    requires size > 0
    ensures |s| < size ==> r == s
    ensures |s| >= size ==> |r| == size - 1 && r <= s
  {
    if |s| < size then s else s[..size - 1]
  }

  /** What a buffer of `size` bytes keeps of a string: all of it, or what leaves room for the terminator. */
  predicate CutTo(kept: string, given: string, size: nat) {
    kept <= given && (|given| < size ==> kept == given) && (|given| >= size ==> |kept| == size - 1)
  }

  /** Reverses a sequence. */
  function Reverse<T>(s: seq<T>): (r: seq<T>)
    ensures |r| == |s|
    ensures forall i :: 0 <= i < |s| ==> r[i] == s[|s| - 1 - i]
  {
    if s == [] then [] else Reverse(s[1..]) + [s[0]]
  }

  /** `n` copies of `x`. */
  function Repeat<T>(x: T, n: nat): (r: seq<T>)
    ensures |r| == n
    ensures forall i :: 0 <= i < n ==> r[i] == x
  {
    seq(n, _ => x)
  }

  /** The first place of a character. */
  function IndexOf(s: string, c: char): (r: Option<nat>)
    ensures r.Some? ==> r.value < |s|
  {
    if s == "" then None
    else if s[0] == c then Some(0)
    else
      var rest := IndexOf(s[1..], c);
      if rest == None then None else Some(rest.value + 1)
  }

  /** What the C string functions see of a buffer's characters. */
  function CString(s: string): (r: string)
    ensures |r| <= |s|
  {
    var at := IndexOf(s, NUL);
    if at == None then s else s[..at.value]
  }

  lemma {:induction false} FirstPlace(s: string, c: char, k: nat)
    requires k < |s| && s[k] == c && forall i :: 0 <= i < k ==> s[i] != c
    ensures IndexOf(s, c) == Some(k)
  {
    if k > 0 {
      FirstPlace(s[1..], c, k - 1);
    }
  }

  lemma {:induction false} Absent(s: string, c: char)
    requires forall i :: 0 <= i < |s| ==> s[i] != c
    ensures IndexOf(s, c) == None
  {
    if s != "" {
      Absent(s[1..], c);
    }
  }

  lemma SplitAt(head: string, c: char, tail: string)
    requires forall i :: 0 <= i < |head| ==> head[i] != c
    ensures IndexOf(head + [c] + tail, c) == Some(|head|)
    ensures (head + [c] + tail)[..|head|] == head && (head + [c] + tail)[|head| + 1..] == tail
  {
    FirstPlace(head + [c] + tail, c, |head|);
  }

  lemma {:induction false} CStringPlain(s: string)
    ensures NUL !in CString(s)
  {
    FoundFirst(s, NUL);
  }

  lemma {:induction false} FoundFirst(s: string, c: char)
    ensures forall i :: 0 <= i < (if IndexOf(s, c).Some? then IndexOf(s, c).value else |s|) ==> s[i] != c
  {
    if s != "" && s[0] != c {
      FoundFirst(s[1..], c);
      forall i | 0 <= i < (if IndexOf(s, c).Some? then IndexOf(s, c).value else |s|) ensures s[i] != c {
        if i > 0 {
          assert s[1..][i - 1] == s[i];
        }
      }
    }
  }

  lemma Associate<T>(a: seq<T>, b: seq<T>, c: seq<T>)
    ensures a + (b + c) == a + b + c && a + [] == a
  {
  }

  lemma TakeOneMore<T>(s: seq<T>, i: nat)
    requires i < |s|
    ensures s[..i] + [s[i]] == s[..i + 1]
  {
  }

  lemma Regroup<T>(a: seq<T>, b: seq<T>, c: seq<T>, d: seq<T>)
    ensures a + (b + (c + d)) == (a + (b + c)) + d
    ensures a + (b + c + d) == a + b + c + d
  {
  }
}
