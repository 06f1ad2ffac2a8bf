/** The random source. Python's process-wide generator becomes an explicit
    oracle: `rng(pos)` is the raw value of draw number `pos`, and every
    generator threads the position of its next draw. A draw from a range of
    `n` choices is `rng(pos) % n`, so every choice in the range is the outcome
    of some oracle and no other outcome is possible; how likely each one is
    is not modelled. */
module Draws {

  type Rng = nat -> nat

  /** One draw among `n` choices (`random.choice` on `n` candidates, or
      `random.randint(lo, lo + n - 1)` shifted by `lo`). */
  function Draw(rng: Rng, pos: nat, n: nat): (r: nat)
    requires n > 0
    ensures r < n
  {
    rng(pos) % n
  }

  /** The oracle that answers `k` to every draw. */
  function ConstRng(k: nat): Rng
  {
    _ => k
  }

  /** Two oracles that give the same draws from position `pos` on. */
  ghost predicate AgreeFrom(rng: Rng, rng': Rng, pos: nat)
  {
    forall j :: pos <= j ==> rng(j) == rng'(j)
  }

  /** `rng` with draw number `pos` replaced by `k`. */
  function Override(rng: Rng, pos: nat, k: nat): Rng
  {
    j => if j == pos then k else rng(j)
  }

  lemma DrawConst(k: nat, pos: nat, n: nat)
    requires k < n
    ensures Draw(ConstRng(k), pos, n) == k
  {
    assert ConstRng(k)(pos) == k;
    ModOfSmall(k, n);
  }

  lemma ModOfSmall(k: nat, n: nat)
    requires k < n
    ensures k % n == k
  {
  }

  /** Characters of `string.ascii_letters + string.digits`. */
  predicate IsAlnum(c: char)
  {
    'a' <= c <= 'z' || 'A' <= c <= 'Z' || '0' <= c <= '9'
  }

  /** The `i`-th character of `string.ascii_letters + string.digits`:
      lower-case letters, then upper-case letters, then digits. */
  function AlnumAt(i: nat): (c: char)
    requires i < 62
    ensures IsAlnum(c)
  {
    if i < 26 then ('a' as int + i) as char
    else if i < 52 then ('A' as int + (i - 26)) as char
    else ('0' as int + (i - 52)) as char
  }

  /** The position of an alphanumeric character in that alphabet (0 for any
      other character). */
  function AlnumIndex(c: char): (i: nat)
    ensures i < 62
    ensures IsAlnum(c) ==> AlnumAt(i) == c
  {
    if 'a' <= c <= 'z' then c as int - 'a' as int
    else if 'A' <= c <= 'Z' then 26 + (c as int - 'A' as int)
    else if '0' <= c <= '9' then 52 + (c as int - '0' as int)
    else 0
  }

  /** AlnumIndex undoes AlnumAt, so the 62 positions name 62 distinct
      characters. */
  lemma AlnumRoundTrip(i: nat)
    requires i < 62
    ensures AlnumIndex(AlnumAt(i)) == i
  {
  }

  /** What `''.join(random.choices(ascii_letters + digits, k=10))` can yield. */
  predicate IsRandomString(s: string)
  {
    |s| == 10 && forall i :: 0 <= i < |s| ==> IsAlnum(s[i])
  }

  /** `k` independent draws from the 62-character alphabet, with replacement. */
  function Choices(rng: Rng, pos: nat, k: nat): (r: (string, nat))
    ensures |r.0| == k && r.1 == pos + k
    ensures forall i :: 0 <= i < k ==> IsAlnum(r.0[i])
    decreases k
  {
    if k == 0 then ("", pos)
    else
      var (rest, next) := Choices(rng, pos + 1, k - 1);
      ([AlnumAt(Draw(rng, pos, 62))] + rest, next)
  }

  /** `Choices` reads only the draws at `pos` and after. */
  lemma {:induction false} ChoicesFrame(rng: Rng, rng': Rng, pos: nat, k: nat)
    requires AgreeFrom(rng, rng', pos)
    ensures Choices(rng, pos, k) == Choices(rng', pos, k)
    decreases k
  {
    if k > 0 {
      assert rng(pos) == rng'(pos);
      ChoicesFrame(rng, rng', pos + 1, k - 1);
    }
  }

  /** The string generator of a `string` node without `pattern`. */
  function RandomString(rng: Rng, pos: nat): (r: (string, nat))
    ensures IsRandomString(r.0) && r.1 == pos + 10
  {
    Choices(rng, pos, 10)
  }

  /** Any oracle whose draws spell out `s` makes `Choices` return `s`. */
  lemma {:induction false} ChoicesSpell(rng: Rng, pos: nat, s: string)
    requires forall i :: 0 <= i < |s| ==> IsAlnum(s[i]) && rng(pos + i) % 62 == AlnumIndex(s[i])
    ensures Choices(rng, pos, |s|).0 == s
    decreases |s|
  {
    if |s| > 0 {
      forall i | 0 <= i < |s| - 1
        ensures IsAlnum(s[1..][i]) && rng(pos + 1 + i) % 62 == AlnumIndex(s[1..][i])
      {
        assert s[1..][i] == s[i + 1];
        assert pos + 1 + i == pos + (i + 1);
      }
      ChoicesSpell(rng, pos + 1, s[1..]);
      assert rng(pos + 0) % 62 == AlnumIndex(s[0]);
      assert s == [s[0]] + s[1..];
    }
  }

  /** The oracle that spells out `s` from draw `pos` on. */
  function SpellRng(s: string, pos: nat): Rng
  {
    j => SpellAt(s, pos, j)
  }

  function SpellAt(s: string, pos: nat, j: nat): nat
  {
    if pos <= j < pos + |s| then AlnumIndex(s[j - pos]) else 0
  }

  /** Every alphanumeric string of length 10 is a possible output of the
      string generator: its support is exactly `IsRandomString`. */
  lemma RandomStringReachable(s: string, pos: nat)
    requires IsRandomString(s)
    ensures RandomString(SpellRng(s, pos), pos).0 == s
  {
    var rng := SpellRng(s, pos);
    forall i | 0 <= i < |s|
      ensures IsAlnum(s[i]) && rng(pos + i) % 62 == AlnumIndex(s[i])
    {
      assert rng(pos + i) == AlnumIndex(s[i]);
    }
    ChoicesSpell(rng, pos, s);
  }
}
