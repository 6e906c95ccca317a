/** Combining styles, with a cache whose keys pack two style keys and a flag into 64 bits. */
module Blender {

  /** How a style came about. Every way to mix colours gives such a term a value, so what
      holds of terms holds whatever the mixing does. */
  datatype Look =
    | Plain(id: nat)
    | Blended(base: Look, overlay: Look)
    | Overridden(base: Look, overlay: Look)

  /** Styles are compared by identity. */
  class Style {
    const look: Look

    constructor (look: Look)
      ensures this.look == look
    {
      this.look := look;
    }
  }

  function Combined(base: Look, overlay: Look, override: bool): Look {
    if override then Overridden(base, overlay) else Blended(base, overlay)
  }

  // ----- unsigned 64-bit words -----

  /** One bit less than half a word: keys have to stay below it. */
  const LIMIT := 0x8000_0000

  const WORD := 0x1_0000_0000_0000_0000

  function Pow2(n: nat): (p: nat)
    ensures p > 0
  {
    if n == 0 then 1 else 2 * Pow2(n - 1)
  }

  /** Bitwise or. */
  function Or(a: nat, b: nat): nat
    decreases a + b
  {
    if a == 0 && b == 0 then 0
    else 2 * Or(a / 2, b / 2) + if a % 2 == 1 || b % 2 == 1 then 1 else 0
  }

  /** The cache key of a combination: two words' low halves and the top bit. */
  function Pack(baseKey: nat, overlayKey: nat, override: bool): nat {
    var key := Or(baseKey * 0x1_0000_0000 % WORD, overlayKey);
    if override then Or(key, 0x8000_0000_0000_0000) else key
  }

  lemma {:induction false} Pow2Values()
    ensures Pow2(32) == 0x1_0000_0000 && Pow2(63) == 0x8000_0000_0000_0000
  {
    assert Pow2(8) == 256;
    assert Pow2(16) == 0x1_0000;
    assert Pow2(24) == 0x100_0000;
    assert Pow2(32) == 0x1_0000_0000;
    assert Pow2(40) == 0x100_0000_0000;
    assert Pow2(48) == 0x1_0000_0000_0000;
    assert Pow2(56) == 0x100_0000_0000_0000;
  }

  /** Words that use different bits are added. */
  lemma {:induction false} OrDisjoint(hi: nat, n: nat, lo: nat)
    requires lo < Pow2(n)
    ensures Or(hi * Pow2(n), lo) == hi * Pow2(n) + lo
    decreases n
  {
    if n == 0 {
      OrZero(hi);
    } else {
      var p := Pow2(n - 1);
      assert hi * Pow2(n) == 2 * (hi * p);
      OrDisjoint(hi, n - 1, lo / 2);
    }
  }

  lemma {:induction false} OrZero(a: nat)
    ensures Or(a, 0) == a && Or(0, a) == a
  {
    if a > 0 {
      OrZero(a / 2);
    }
  }

  lemma {:induction false} OrCommutes(a: nat, b: nat)
    ensures Or(a, b) == Or(b, a)
    decreases a + b
  {
    if a > 0 || b > 0 {
      OrCommutes(a / 2, b / 2);
    }
  }

  /** Setting a bit that is set changes nothing. */
  lemma {:induction false} OrSet(n: nat, lo: nat)
    requires lo < Pow2(n)
    ensures Or(Pow2(n) + lo, Pow2(n)) == Pow2(n) + lo
    decreases n
  {
    if n > 0 {
      OrSet(n - 1, lo / 2);
    }
  }

  /** Three fields side by side. */
  function Fields(b: nat, o: nat, f: bool): nat {
    (if f then 0x8000_0000_0000_0000 else 0) + b * 0x1_0000_0000 + o
  }

  lemma {:induction false} ShiftFits(b: nat)
    requires b < LIMIT
    ensures b * 0x1_0000_0000 % WORD == b * 0x1_0000_0000
  {
    assert b * 0x1_0000_0000 < WORD;
  }

  /** Keys below 2^31 are packed side by side ... */
  lemma {:induction false} PackIsFields(b: nat, o: nat, f: bool)
    requires b < LIMIT && o < 0x1_0000_0000
    ensures Pack(b, o, f) == Fields(b, o, f)
  {
    Pow2Values();
    OrDisjoint(b, 32, o);
    var key := b * 0x1_0000_0000 + o;
    ShiftFits(b);
    if f {
      OrCommutes(key, 0x8000_0000_0000_0000);
      OrDisjoint(1, 63, key);
    }
  }

  lemma {:induction false} FieldsInjective(b1: nat, o1: nat, f1: bool, b2: nat, o2: nat, f2: bool)
    requires b1 < LIMIT && o1 < LIMIT && b2 < LIMIT && o2 < LIMIT
    requires Fields(b1, o1, f1) == Fields(b2, o2, f2)
    ensures b1 == b2 && o1 == o2 && f1 == f2
  {
  }

  /** At 2^31 the key of the base already sets the flag. */
  lemma {:induction false} PackCollides(o: nat)
    requires o < 0x1_0000_0000
    ensures Pack(LIMIT, o, false) == Pack(LIMIT, o, true)
  {
    Pow2Values();
    OrDisjoint(LIMIT, 32, o);
    OrSet(63, o);
  }

  ghost predicate InjectiveBelow(limit: nat) {
    forall b1: nat, o1: nat, f1: bool, b2: nat, o2: nat, f2: bool ::
      1 <= b1 < limit && 1 <= o1 < limit && 1 <= b2 < limit && 1 <= o2 < limit && Pack(b1, o1, f1) == Pack(b2, o2, f2)
      ==> b1 == b2 && o1 == o2 && f1 == f2
  }

  /** ... and 2^31 is as far as it goes: from then on two combinations share a key. */
  lemma {:induction false} PackInjectiveUpTo(limit: nat)
    ensures InjectiveBelow(limit) <==> limit <= LIMIT
  {
    if limit <= LIMIT {
      forall b1: nat, o1: nat, f1: bool, b2: nat, o2: nat, f2: bool |
        1 <= b1 < limit && 1 <= o1 < limit && 1 <= b2 < limit && 1 <= o2 < limit && Pack(b1, o1, f1) == Pack(b2, o2, f2)
        ensures b1 == b2 && o1 == o2 && f1 == f2
      {
        PackIsFields(b1, o1, f1);
        PackIsFields(b2, o2, f2);
        FieldsInjective(b1, o1, f1, b2, o2, f2);
      }
    } else {
      PackCollides(1);
    }
  }

  // ----- the cache -----

  datatype Combination = Combination(base: Style, overlay: Style, override: bool)

  type Keys = map<Style, nat>

  /** Different styles have different keys, all of them below the next one. */
  ghost predicate KeysOk(keys: Keys, nextKey: nat) {
    && 1 <= nextKey <= LIMIT
    && (forall s :: s in keys ==> 1 <= keys[s] < nextKey)
    && (forall s, t :: s in keys && t in keys && keys[s] == keys[t] ==> s == t)
  }

  ghost predicate Known(c: Combination, keys: Keys) {
    c.base in keys && c.overlay in keys
  }

  ghost function KeyOf(c: Combination, keys: Keys): nat
    requires Known(c, keys)
  {
    Fields(keys[c.base], keys[c.overlay], c.override)
  }

  /** The cache answers c with s, which looks like the combination and has a key itself. */
  ghost predicate Answers(c: Combination, s: Style, keys: Keys, styles: map<nat, Style>) {
    && Known(c, keys) && KeyOf(c, keys) in styles && styles[KeyOf(c, keys)] == s
    && s in keys && s.look == Combined(c.base.look, c.overlay.look, c.override)
  }

  /** The entry under k is that of a combination asked for. */
  ghost predicate IsEntry(k: nat, origin: map<nat, Combination>, memo: map<Combination, Style>, keys: Keys) {
    k in origin && origin[k] in memo && Known(origin[k], keys) && KeyOf(origin[k], keys) == k
  }

  /** The cache holds the answers of exactly the combinations asked for. */
  ghost predicate CacheOk(keys: Keys, styles: map<nat, Style>, memo: map<Combination, Style>,
                          origin: map<nat, Combination>)
  {
    && (forall c {:trigger Answers(c, memo[c], keys, styles)} :: c in memo ==> Answers(c, memo[c], keys, styles))
    && (forall k {:trigger IsEntry(k, origin, memo, keys)} :: k in styles ==> IsEntry(k, origin, memo, keys))
  }

  lemma {:induction false} NewKeyOk(keys: Keys, nextKey: nat, s: Style)
    requires KeysOk(keys, nextKey) && s !in keys && nextKey < LIMIT
    ensures KeysOk(keys[s := nextKey], nextKey + 1)
  {
  }

  lemma {:induction false} NewKeyKeepsCache(keys: Keys, key: nat, s: Style, styles: map<nat, Style>,
                                            memo: map<Combination, Style>, origin: map<nat, Combination>)
    requires CacheOk(keys, styles, memo, origin) && s !in keys
    ensures CacheOk(keys[s := key], styles, memo, origin)
  {
    var keys' := keys[s := key];
    forall c | c in memo ensures Answers(c, memo[c], keys', styles) {
      assert Answers(c, memo[c], keys, styles);
    }
    forall k | k in styles ensures IsEntry(k, origin, memo, keys') {
      assert IsEntry(k, origin, memo, keys);
    }
  }

  /** A hit is the answer to the very same combination. */
  lemma {:induction false} HitIsSame(c: Combination, keys: Keys, nextKey: nat, styles: map<nat, Style>,
                                     memo: map<Combination, Style>, origin: map<nat, Combination>)
    requires KeysOk(keys, nextKey) && CacheOk(keys, styles, memo, origin)
    requires Known(c, keys) && KeyOf(c, keys) in styles
    ensures c in memo && Answers(c, memo[c], keys, styles)
  {
    assert IsEntry(KeyOf(c, keys), origin, memo, keys);
    var o := origin[KeyOf(c, keys)];
    FieldsInjective(keys[o.base], keys[o.overlay], o.override, keys[c.base], keys[c.overlay], c.override);
    assert o == c;
    assert Answers(c, memo[c], keys, styles);
  }

  lemma {:induction false} RememberedIsCached(c: Combination, keys: Keys, styles: map<nat, Style>,
                                              memo: map<Combination, Style>, origin: map<nat, Combination>)
    requires CacheOk(keys, styles, memo, origin)
    ensures c in memo ==> Known(c, keys) && KeyOf(c, keys) in styles
  {
    if c in memo {
      assert Answers(c, memo[c], keys, styles);
    }
  }

  lemma {:induction false} NewEntryOk(c: Combination, s: Style, keys: Keys, styles: map<nat, Style>,
                                      memo: map<Combination, Style>, origin: map<nat, Combination>)
    requires CacheOk(keys, styles, memo, origin) && Known(c, keys) && KeyOf(c, keys) !in styles
    requires s in keys && s.look == Combined(c.base.look, c.overlay.look, c.override)
    ensures c !in memo
    ensures CacheOk(keys, styles[KeyOf(c, keys) := s], memo[c := s], origin[KeyOf(c, keys) := c])
  {
    var key := KeyOf(c, keys);
    var styles', memo', origin' := styles[key := s], memo[c := s], origin[key := c];
    RememberedIsCached(c, keys, styles, memo, origin);
    forall d | d in memo' ensures Answers(d, memo'[d], keys, styles') {
      if d != c {
        assert Answers(d, memo[d], keys, styles);
      }
    }
    forall k | k in styles' ensures IsEntry(k, origin', memo', keys) {
      if k != key {
        assert IsEntry(k, origin, memo, keys);
      }
    }
  }

  ghost predicate SameOnlyIfEqual(memo: map<Combination, Style>, c: Combination, d: Combination) {
    c in memo && d in memo && memo[c] == memo[d] ==> c == d
  }

  /** Different combinations have different answers. */
  ghost predicate Injective(memo: map<Combination, Style>) {
    forall c, d {:trigger SameOnlyIfEqual(memo, c, d)} :: c in memo && d in memo ==> SameOnlyIfEqual(memo, c, d)
  }

  /** An answer without a key so far is a new one. */
  lemma {:induction false} NewAnswerDiffers(c: Combination, s: Style, keys: Keys, styles: map<nat, Style>,
                                            memo: map<Combination, Style>, origin: map<nat, Combination>)
    requires CacheOk(keys, styles, memo, origin) && Injective(memo) && s !in keys
    ensures Injective(memo[c := s])
  {
    var memo' := memo[c := s];
    forall x, y | x in memo' && y in memo' ensures SameOnlyIfEqual(memo', x, y) {
      assert x in memo && y in memo ==> SameOnlyIfEqual(memo, x, y);
      assert x in memo ==> Answers(x, memo[x], keys, styles);
      assert y in memo ==> Answers(y, memo[y], keys, styles);
    }
  }

  class Blender {
    var keys: Keys
    var styles: map<nat, Style>
    var nextKey: nat
    /** Every combination asked for so far, with its answer. */
    ghost var memo: map<Combination, Style>
    ghost var origin: map<nat, Combination>

    ghost predicate Valid()
      reads this
    {
      KeysOk(keys, nextKey) && CacheOk(keys, styles, memo, origin) && Injective(memo)
    }

    constructor ()
      ensures Valid() && memo == map[] && nextKey == 1
    {
      keys, styles, nextKey := map[], map[], 1;
      memo, origin := map[], map[];
    }

    method Key(s: Style) returns (k: nat)
      requires Valid() && nextKey < LIMIT
      modifies this`keys, this`nextKey
      ensures Valid() && s in keys && keys[s] == k < LIMIT
      ensures old(nextKey) <= nextKey <= old(nextKey) + 1
      ensures forall t :: t in old(keys) ==> t in keys && keys[t] == old(keys)[t]
    {
      if s in keys {
        return keys[s];
      }
      NewKeyOk(keys, nextKey, s);
      NewKeyKeepsCache(keys, nextKey, s, styles, memo, origin);
      k := nextKey;
      nextKey := (nextKey + 1) % WORD;
      keys := keys[s := k];
    }

    method BlendKey(c: Combination) returns (key: nat)
      requires Valid() && nextKey + 2 <= LIMIT
      modifies this`keys, this`nextKey
      ensures Valid() && Known(c, keys) && key == KeyOf(c, keys)
      ensures old(nextKey) <= nextKey <= old(nextKey) + 2
    {
      var baseKey := Key(c.base);
      var overlayKey := Key(c.overlay);
      key := Pack(baseKey, overlayKey, c.override);
      PackIsFields(baseKey, overlayKey, c.override);
    }

    /** The combination of two styles. As long as keys stay below 2^31, asking again gives
        the same style, and no other combination's. */
    method Blend(base: Style, overlay: Style, override: bool) returns (result: Style)
      requires Valid() && nextKey + 3 <= LIMIT
      modifies this
      ensures Valid() && old(nextKey) <= nextKey <= old(nextKey) + 3
      ensures override ==> result.look == Overridden(base.look, overlay.look)
      ensures !override ==> result.look == Blended(base.look, overlay.look)
      ensures var c := Combination(base, overlay, override);
              if c in old(memo) then memo == old(memo) && result == memo[c]
              else memo == old(memo)[c := result] && fresh(result)
    {
      var c := Combination(base, overlay, override);
      var key := BlendKey(c);
      if key in styles {
        HitIsSame(c, keys, nextKey, styles, memo, origin);
        return styles[key];
      }
      result := new Style(Combined(base.look, overlay.look, override));
      Store(c, key, result);
    }

    method Store(c: Combination, key: nat, result: Style)
      requires Valid() && nextKey < LIMIT && Known(c, keys) && KeyOf(c, keys) == key && key !in styles
      requires result !in keys && result.look == Combined(c.base.look, c.overlay.look, c.override)
      modifies this
      ensures Valid() && nextKey == old(nextKey) + 1
      ensures c !in old(memo) && memo == old(memo)[c := result]
    {
      NewKeyOk(keys, nextKey, result);
      NewKeyKeepsCache(keys, nextKey, result, styles, memo, origin);
      NewAnswerDiffers(c, result, keys, styles, memo, origin);
      NewEntryOk(c, result, keys[result := nextKey], styles, memo, origin);
      styles := styles[key := result];
      keys := keys[result := nextKey];
      nextKey := (nextKey + 1) % WORD;
      memo := memo[c := result];
      origin := origin[key := c];
    }
  }
}
