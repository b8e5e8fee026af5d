/** The temporary password generator: one uppercase letter, one lowercase
    letter and one digit, five characters from the whole alphabet, then a
    shuffle. The random draws and the shuffle's permutation are inputs. */
module Password {

  const UPPERCASE: string := "ABCDEFGHIJKLMNOPQRSTUVWXYZ"
  const LOWERCASE: string := "abcdefghijklmnopqrstuvwxyz"
  const DIGITS: string := "0123456789"
  const ALL_CHARS: string := UPPERCASE + LOWERCASE + DIGITS

  /** Characters appended by the loop `for (let i = 3; i < 8; i++)` stop at this length. */
  const PASSWORD_LENGTH: nat := 8

  /** One value of `Math.random()` per appended character. */
  predicate ValidDraws(draws: seq<real>)
  {
    |draws| == PASSWORD_LENGTH && forall i :: 0 <= i < |draws| ==> 0.0 <= draws[i] < 1.0
  }

  /** `Math.floor(Math.random() * alphabet.length)` always indexes the alphabet. */
  function DrawIndex(r: real, len: nat): (i: nat)
    requires 0.0 <= r < 1.0 && len > 0
    ensures i < len
  {
    var x := r * len as real;
    assert 0.0 <= x < len as real by {
      assert r * len as real < 1.0 * len as real;
    }
    x.Floor
  }

  /** The character a draw picks from an alphabet. */
  function Pick(alphabet: string, r: real): char
    requires 0.0 <= r < 1.0 && |alphabet| > 0
  {
    alphabet[DrawIndex(r, |alphabet|)]
  }

  /** A draw always picks a character of the alphabet. */
  lemma PickInAlphabet(alphabet: string, r: real)
    requires 0.0 <= r < 1.0 && |alphabet| > 0
    ensures Pick(alphabet, r) in alphabet
  {}

  /** The alphabet position i draws from: the three seeded classes, then
      the whole alphabet. */
  function Alphabet(i: nat): (a: string)
    ensures |a| > 0
  {
    if i == 0 then UPPERCASE
    else if i == 1 then LOWERCASE
    else if i == 2 then DIGITS
    else ALL_CHARS
  }

  /** The character appended at position i. */
  function CharAt(draws: seq<real>, i: nat): char
    requires ValidDraws(draws) && i < PASSWORD_LENGTH
  {
    Pick(Alphabet(i), draws[i])
  }

  /** Each of the three classes is part of the whole alphabet. */
  lemma ClassInAllChars(c: char)
    requires c in UPPERCASE || c in LOWERCASE || c in DIGITS
    ensures c in ALL_CHARS
  {
    if c in UPPERCASE {
      var k :| 0 <= k < |UPPERCASE| && UPPERCASE[k] == c;
      assert ALL_CHARS[k] == c;
    } else if c in LOWERCASE {
      var k :| 0 <= k < |LOWERCASE| && LOWERCASE[k] == c;
      assert ALL_CHARS[|UPPERCASE| + k] == c;
    } else {
      var k :| 0 <= k < |DIGITS| && DIGITS[k] == c;
      assert ALL_CHARS[|UPPERCASE| + |LOWERCASE| + k] == c;
    }
  }

  /** Every appended character is in the whole alphabet, and the first
      three are an uppercase letter, a lowercase letter and a digit. */
  lemma CharAtClass(draws: seq<real>, i: nat)
    requires ValidDraws(draws) && i < PASSWORD_LENGTH
    ensures CharAt(draws, i) in ALL_CHARS
    ensures i == 0 ==> CharAt(draws, i) in UPPERCASE
    ensures i == 1 ==> CharAt(draws, i) in LOWERCASE
    ensures i == 2 ==> CharAt(draws, i) in DIGITS
  {
    PickInAlphabet(Alphabet(i), draws[i]);
    if i < 3 {
      ClassInAllChars(CharAt(draws, i));
    }
  }

  /** The string built before the shuffle. */
  function Built(draws: seq<real>): (s: string)
    requires ValidDraws(draws)
    ensures |s| == PASSWORD_LENGTH
  {
    seq(PASSWORD_LENGTH, i requires 0 <= i < PASSWORD_LENGTH => CharAt(draws, i))
  }

  /** A string holding the drawn character at every position is the built string. */
  lemma BuiltIsCharAt(draws: seq<real>, s: string)
    requires ValidDraws(draws) && |s| == PASSWORD_LENGTH
    requires forall k :: 0 <= k < PASSWORD_LENGTH ==> s[k] == CharAt(draws, k)
    ensures s == Built(draws)
  {}

  /** `p` lists each position 0..n-1 exactly once. */
  predicate IsPermutation(p: seq<nat>, n: nat)
  {
    && |p| == n
    && (forall i :: 0 <= i < n ==> p[i] < n)
    && (forall i, j :: 0 <= i < j < n ==> p[i] != p[j])
    && (forall k :: 0 <= k < n ==> k in p)
  }

  /** The shuffled string: position i receives the character at `p[i]`. */
  function Permute(s: string, p: seq<nat>): (t: string)
    requires forall i :: 0 <= i < |p| ==> p[i] < |s|
    ensures |t| == |p|
  {
    seq(|p|, i requires 0 <= i < |p| => s[p[i]])
  }

  /** Exchanging two positions keeps the permutation property. */
  lemma SwapIsPermutation(p: seq<nat>, n: nat, a: nat, b: nat)
    requires IsPermutation(p, n) && a < n && b < n
    ensures IsPermutation(p[a := p[b]][b := p[a]], n)
  {
    var q := p[a := p[b]][b := p[a]];
    forall k | 0 <= k < n
      ensures k in q
    {
      assert k in p;
      var i :| 0 <= i < n && p[i] == k;
      if i == a {
        assert q[b] == k;
      } else if i == b {
        assert q[a] == k;
      } else {
        assert q[i] == k;
      }
    }
  }

  /** A permutation ending in its largest position permutes the rest. */
  lemma DropLastIsPermutation(q: seq<nat>, n: nat)
    requires n > 0 && IsPermutation(q, n) && q[n - 1] == n - 1
    ensures IsPermutation(q[..n - 1], n - 1)
  {
    var r := q[..n - 1];
    forall k | 0 <= k < n - 1
      ensures k in r
    {
      assert k in q;
      var i :| 0 <= i < n && q[i] == k;
      assert i != n - 1;
      assert r[i] == k;
    }
  }

  /** Exchanging two characters keeps the same multiset of characters. */
  lemma SwapMultiset(t: string, a: nat, b: nat)
    requires a < |t| && b < |t|
    ensures multiset(t[a := t[b]][b := t[a]]) == multiset(t)
  {}

  /** Shuffling by the swapped permutation swaps the shuffled characters. */
  lemma PermuteSwap(s: string, p: seq<nat>, a: nat, b: nat)
    requires IsPermutation(p, |s|) && a < |s| && b < |s|
    ensures IsPermutation(p[a := p[b]][b := p[a]], |s|)
    ensures Permute(s, p[a := p[b]][b := p[a]])
         == Permute(s, p)[a := Permute(s, p)[b]][b := Permute(s, p)[a]]
  {
    SwapIsPermutation(p, |s|, a, b);
  }

  /** When the permutation keeps the last position, so does the shuffle. */
  lemma PermuteKeepsLast(s: string, q: seq<nat>)
    requires |s| > 0 && IsPermutation(q, |s|) && q[|s| - 1] == |s| - 1
    ensures IsPermutation(q[..|s| - 1], |s| - 1)
    ensures Permute(s, q) == Permute(s[..|s| - 1], q[..|s| - 1]) + [s[|s| - 1]]
  {
    DropLastIsPermutation(q, |s|);
  }

  /** Moving the position that receives the last character to the end
      splits the shuffle into a shuffle of the rest plus that character. */
  lemma PermuteSplitLast(s: string, p: seq<nat>, j: nat) returns (rest: seq<nat>)
    requires |s| > 0 && IsPermutation(p, |s|) && j < |s| && p[j] == |s| - 1
    ensures IsPermutation(rest, |s| - 1)
    ensures multiset(Permute(s, p)) == multiset(Permute(s[..|s| - 1], rest)) + multiset{s[|s| - 1]}
  {
    var n := |s|;
    var q := p[j := p[n - 1]][n - 1 := p[j]];
    PermuteSwap(s, p, j, n - 1);
    SwapMultiset(Permute(s, p), j, n - 1);
    assert multiset(Permute(s, q)) == multiset(Permute(s, p));
    PermuteKeepsLast(s, q);
    rest := q[..n - 1];
    assert Permute(s, q) == Permute(s[..n - 1], rest) + [s[n - 1]];
  }

  /** Shuffling by a permutation keeps exactly the same characters. */
  lemma {:induction false} PermuteMultiset(s: string, p: seq<nat>)
    requires IsPermutation(p, |s|)
    ensures multiset(Permute(s, p)) == multiset(s)
    decreases |s|
  {
    var n := |s|;
    if n > 0 {
      assert n - 1 in p;
      var j :| 0 <= j < n && p[j] == n - 1;
      var rest := PermuteSplitLast(s, p, j);
      PermuteMultiset(s[..n - 1], rest);
      assert s == s[..n - 1] + [s[n - 1]];
    }
  }

  /** The shuffle keeps every character class the built string has. */
  lemma ShuffledCharacters(draws: seq<real>, shuffle: seq<nat>)
    requires ValidDraws(draws) && IsPermutation(shuffle, PASSWORD_LENGTH)
    ensures multiset(Permute(Built(draws), shuffle)) == multiset(Built(draws))
    ensures forall i :: 0 <= i < PASSWORD_LENGTH ==> Permute(Built(draws), shuffle)[i] in ALL_CHARS
    ensures exists i :: 0 <= i < PASSWORD_LENGTH && Permute(Built(draws), shuffle)[i] in UPPERCASE
    ensures exists i :: 0 <= i < PASSWORD_LENGTH && Permute(Built(draws), shuffle)[i] in LOWERCASE
    ensures exists i :: 0 <= i < PASSWORD_LENGTH && Permute(Built(draws), shuffle)[i] in DIGITS
  {
    var b := Built(draws);
    var p := Permute(b, shuffle);
    PermuteMultiset(b, shuffle);
    forall i | 0 <= i < PASSWORD_LENGTH
      ensures p[i] in ALL_CHARS
    {
      assert p[i] == b[shuffle[i]];
      CharAtClass(draws, shuffle[i]);
    }
    CharAtClass(draws, 0);
    CharAtClass(draws, 1);
    CharAtClass(draws, 2);
    assert b[0] in multiset(p) && b[1] in multiset(p) && b[2] in multiset(p);
    assert b[0] in p && b[1] in p && b[2] in p;
  }

  /** `generatePassword()`. */
  method GeneratePassword(draws: seq<real>, shuffle: seq<nat>) returns (password: string)
    requires ValidDraws(draws) && IsPermutation(shuffle, PASSWORD_LENGTH)
    ensures |password| == PASSWORD_LENGTH
    ensures password == Permute(Built(draws), shuffle)
    ensures multiset(password) == multiset(Built(draws))
    ensures forall i :: 0 <= i < |password| ==> password[i] in ALL_CHARS
    ensures exists i :: 0 <= i < |password| && password[i] in UPPERCASE
    ensures exists i :: 0 <= i < |password| && password[i] in LOWERCASE
    ensures exists i :: 0 <= i < |password| && password[i] in DIGITS
  {
    password := "";
    password := password + [CharAt(draws, 0)];
    password := password + [CharAt(draws, 1)];
    password := password + [CharAt(draws, 2)];
    for i := 3 to PASSWORD_LENGTH
      invariant |password| == i
      invariant forall k :: 0 <= k < i ==> password[k] == CharAt(draws, k)
    {
      password := password + [CharAt(draws, i)];
    }
    BuiltIsCharAt(draws, password);
    password := Permute(password, shuffle);
    ShuffledCharacters(draws, shuffle);
  }
}
