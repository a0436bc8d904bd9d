/** Password construction, for every stream of random draws. */
module Passwords {
  import opened Wrappers
  import opened Sequences

  const UPPERCASE: string := "ABCDEFGHIJKLMNOPQRSTUVWXYZ"
  const LOWERCASE: string := "abcdefghijklmnopqrstuvwxyz"
  const DIGITS: string := "0123456789"
  const SYMBOLS: string := "!@#$%^&*()_+-=[]{}|;:,.<>?"

  const CONFUSING_UPPER: string := "IO"
  const CONFUSING_LOWER: string := "ilo"
  const CONFUSING_DIGITS: string := "01"

  datatype PasswordConfig = PasswordConfig(
    length: int, uppercase: bool, lowercase: bool, digits: bool, symbols: bool, excludeSimilar: bool)

  datatype CharacterSets = CharacterSets(pool: string, required: seq<string>)

  /** The draws of the generator, one after the other; a distribution over n values takes the next one modulo n. */
  type Draws = nat -> nat

  function Draw(rng: Draws, at: nat, n: nat): (d: nat)
    requires n > 0
    ensures d < n
  {
    rng(at) % n
  }

  lemma DrawIs(rng: Draws, at: nat, n: nat, d: nat)
    requires rng(at) == d < n
    ensures Draw(rng, at, n) == d
  {}

  // ---------- the character sets ----------

  /** The characters of `chars` that do not occur in `excluded`. */
  function FilterOut(chars: string, excluded: string): string {
    if chars == [] then []
    else
      var last := chars[|chars| - 1];
      FilterOut(chars[..|chars| - 1], excluded) + if last in excluded then [] else [last]
  }

  lemma {:induction false} FilterOutKeeps(chars: string, excluded: string)
    ensures forall c :: c in FilterOut(chars, excluded) <==> c in chars && c !in excluded
  {
    if chars != [] {
      FilterOutKeeps(chars[..|chars| - 1], excluded);
      assert chars == chars[..|chars| - 1] + [chars[|chars| - 1]];
    }
  }

  lemma {:induction false} FilterOutOneMore(chars: string, excluded: string, c: char)
    ensures FilterOut(FilterOut(chars, excluded), [c]) == FilterOut(chars, excluded + [c])
  {
    if chars != [] {
      var front, last := chars[..|chars| - 1], chars[|chars| - 1];
      FilterOutOneMore(front, excluded, c);
      var kept := FilterOut(front, excluded);
      if last !in excluded {
        assert (kept + [last])[..|kept|] == kept;
      } else {
        assert kept + [] == kept;
      }
    }
  }

  lemma {:induction false} FilterOutNothing(chars: string)
    ensures FilterOut(chars, []) == chars
  {
    if chars != [] {
      FilterOutNothing(chars[..|chars| - 1]);
      assert chars == chars[..|chars| - 1] + [chars[|chars| - 1]];
    }
  }

  /** A class of characters as the configuration leaves it. */
  function Class(config: PasswordConfig, chars: string, confusable: string): string {
    if config.excludeSimilar then FilterOut(chars, confusable) else chars
  }

  /** One call of the lambda `addSet`. */
  method AddSet(config: PasswordConfig, sets: CharacterSets, chars: string, confusable: string, enabled: bool)
    returns (added: CharacterSets)
    ensures added == Added(config, sets, chars, confusable, enabled)
  {
    if !enabled {
      return sets;
    }
    var filtered := chars;
    if config.excludeSimilar {
      FilterOutNothing(chars);
      for i := 0 to |confusable|
        invariant filtered == FilterOut(chars, confusable[..i])
      {
        FilterOutOneMore(chars, confusable[..i], confusable[i]);
        assert confusable[..i + 1] == confusable[..i] + [confusable[i]];
        filtered := FilterOut(filtered, [confusable[i]]);
      }
      assert confusable[..|confusable|] == confusable;
    }
    added := sets.(pool := sets.pool + filtered);
    if filtered != [] {
      added := added.(required := added.required + [filtered]);
    }
  }

  function Added(config: PasswordConfig, sets: CharacterSets, chars: string, confusable: string, enabled: bool): CharacterSets
  {
    var kept := Class(config, chars, confusable);
    if !enabled then sets
    else CharacterSets(sets.pool + kept, if kept != [] then sets.required + [kept] else sets.required)
  }

  method BuildCharacterSets(config: PasswordConfig) returns (sets: CharacterSets)
    ensures sets == SetsOf(config)
  {
    sets := CharacterSets("", []);
    sets := AddSet(config, sets, UPPERCASE, CONFUSING_UPPER, config.uppercase);
    sets := AddSet(config, sets, LOWERCASE, CONFUSING_LOWER, config.lowercase);
    sets := AddSet(config, sets, DIGITS, CONFUSING_DIGITS, config.digits);
    FilterOutNothing(SYMBOLS);
    sets := AddSet(config, sets, SYMBOLS, "", config.symbols);
  }

  function SetsOf(config: PasswordConfig): CharacterSets {
    var s0 := CharacterSets("", []);
    var s1 := Added(config, s0, UPPERCASE, CONFUSING_UPPER, config.uppercase);
    var s2 := Added(config, s1, LOWERCASE, CONFUSING_LOWER, config.lowercase);
    var s3 := Added(config, s2, DIGITS, CONFUSING_DIGITS, config.digits);
    Added(config, s3, SYMBOLS, "", config.symbols)
  }

  // ---------- validation ----------

  /** The first rule that the configuration breaks, if any. */
  function ConfigError(config: PasswordConfig): Option<string> {
    if config.length < 8 then Some("Password length must be at least 8 characters")
    else if config.length > 128 then Some("Password length must not exceed 128 characters")
    else if !config.uppercase && !config.lowercase && !config.digits && !config.symbols then
      Some("At least one character type must be enabled")
    else None
  }

  predicate IsUpper(c: char) { 'A' <= c <= 'Z' }
  predicate IsLower(c: char) { 'a' <= c <= 'z' }
  predicate IsDigit(c: char) { '0' <= c <= '9' }

  lemma UppercaseRange()
    ensures forall c :: c in UPPERCASE || c in CONFUSING_UPPER ==> IsUpper(c)
  {}

  lemma LowercaseRange()
    ensures forall c :: c in LOWERCASE || c in CONFUSING_LOWER ==> IsLower(c)
  {}

  lemma DigitsRange()
    ensures forall c :: c in DIGITS || c in CONFUSING_DIGITS ==> IsDigit(c)
  {}

  lemma SymbolsRange()
    ensures forall c :: c in SYMBOLS ==> !IsUpper(c) && !IsLower(c) && !IsDigit(c)
  {}

  /** A class is within its characters, and without the confusable ones if those are excluded. */
  lemma ClassKeeps(config: PasswordConfig, chars: string, confusable: string)
    ensures forall c :: c in Class(config, chars, confusable) ==> c in chars && (config.excludeSimilar ==> c !in confusable)
    ensures forall c ::
      c in chars && (config.excludeSimilar ==> c !in confusable) ==> c in Class(config, chars, confusable)
  {
    FilterOutKeeps(chars, confusable);
  }

  lemma ClassHas(config: PasswordConfig, chars: string, confusable: string, i: nat)
    requires i < |chars| && chars[i] !in confusable
    ensures Class(config, chars, confusable) != []
  {
    ClassKeeps(config, chars, confusable);
    assert chars[i] in chars;
  }

  lemma ClassesAreNotEmpty(config: PasswordConfig)
    ensures Class(config, UPPERCASE, CONFUSING_UPPER) != [] && Class(config, LOWERCASE, CONFUSING_LOWER) != []
    ensures Class(config, DIGITS, CONFUSING_DIGITS) != [] && Class(config, SYMBOLS, "") != []
  {
    hide Class;
    ClassHas(config, UPPERCASE, CONFUSING_UPPER, 0);
    ClassHas(config, LOWERCASE, CONFUSING_LOWER, 0);
    ClassHas(config, DIGITS, CONFUSING_DIGITS, 2);
    ClassHas(config, SYMBOLS, "", 0);
  }

  /** The enabled classes, in order; each is not empty, so each is required. */
  function EnabledClasses(config: PasswordConfig): seq<string> {
    (if config.uppercase then [Class(config, UPPERCASE, CONFUSING_UPPER)] else [])
    + (if config.lowercase then [Class(config, LOWERCASE, CONFUSING_LOWER)] else [])
    + (if config.digits then [Class(config, DIGITS, CONFUSING_DIGITS)] else [])
    + (if config.symbols then [Class(config, SYMBOLS, "")] else [])
  }

  lemma SetsAreEnabledClasses(config: PasswordConfig)
    ensures SetsOf(config).required == EnabledClasses(config)
    ensures forall c :: c in SetsOf(config).pool <==>
      exists k :: 0 <= k < |EnabledClasses(config)| && c in EnabledClasses(config)[k]
    ensures forall k :: 0 <= k < |EnabledClasses(config)| ==> EnabledClasses(config)[k] != []
  {
    hide Class, Added, UPPERCASE, LOWERCASE, DIGITS, SYMBOLS, CONFUSING_UPPER, CONFUSING_LOWER, CONFUSING_DIGITS;
    ClassesAreNotEmpty(config);
    var s0 := CharacterSets("", []);
    var s1 := AddedClass(config, s0, UPPERCASE, CONFUSING_UPPER, config.uppercase);
    var s2 := AddedClass(config, s1, LOWERCASE, CONFUSING_LOWER, config.lowercase);
    var s3 := AddedClass(config, s2, DIGITS, CONFUSING_DIGITS, config.digits);
    var s4 := AddedClass(config, s3, SYMBOLS, "", config.symbols);
    assert s1.required == if config.uppercase then [Class(config, UPPERCASE, CONFUSING_UPPER)] else [];
    assert s4 == SetsOf(config) && s4.required == EnabledClasses(config);
    ClassesAreNonEmpty(config);
  }

  lemma ClassesAreNonEmpty(config: PasswordConfig)
    ensures forall k :: 0 <= k < |EnabledClasses(config)| ==> EnabledClasses(config)[k] != []
  {
    hide Class, UPPERCASE, LOWERCASE, DIGITS, SYMBOLS, CONFUSING_UPPER, CONFUSING_LOWER, CONFUSING_DIGITS;
    ClassesAreNotEmpty(config);
  }

  ghost predicate PoolIsUnion(sets: CharacterSets) {
    forall c :: c in sets.pool <==> exists k :: 0 <= k < |sets.required| && c in sets.required[k]
  }

  lemma AddedClass(config: PasswordConfig, sets: CharacterSets, chars: string, confusable: string, enabled: bool)
    returns (added: CharacterSets)
    requires Class(config, chars, confusable) != []
    ensures added == Added(config, sets, chars, confusable, enabled)
    ensures added.required == sets.required + if enabled then [Class(config, chars, confusable)] else []
    ensures PoolIsUnion(sets) ==> PoolIsUnion(added)
  {
    added := Added(config, sets, chars, confusable, enabled);
    if enabled && PoolIsUnion(sets) {
      var n := |sets.required|;
      assert added.required[n] == Class(config, chars, confusable);
      assert forall k :: 0 <= k < n ==> added.required[k] == sets.required[k];
    }
  }

  /** Different classes share no character. */
  lemma ClassesAreDisjoint(config: PasswordConfig, i: nat, j: nat, c: char)
    requires i < j < |EnabledClasses(config)|
    requires c in EnabledClasses(config)[i]
    ensures c !in EnabledClasses(config)[j]
  {
    hide Class, UPPERCASE, LOWERCASE, DIGITS, SYMBOLS, CONFUSING_UPPER, CONFUSING_LOWER, CONFUSING_DIGITS;
    ClassContents(config);
  }

  /** The four classes by the kind of their characters. */
  lemma ClassContents(config: PasswordConfig)
    ensures forall c :: c in Class(config, UPPERCASE, CONFUSING_UPPER) ==> IsUpper(c)
    ensures forall c :: c in Class(config, LOWERCASE, CONFUSING_LOWER) ==> IsLower(c)
    ensures forall c :: c in Class(config, DIGITS, CONFUSING_DIGITS) ==> IsDigit(c)
    ensures forall c :: c in Class(config, SYMBOLS, "") ==> !IsUpper(c) && !IsLower(c) && !IsDigit(c)
  {
    hide Class, UPPERCASE, LOWERCASE, DIGITS, SYMBOLS, CONFUSING_UPPER, CONFUSING_LOWER, CONFUSING_DIGITS;
    ClassKeeps(config, UPPERCASE, CONFUSING_UPPER);
    ClassKeeps(config, LOWERCASE, CONFUSING_LOWER);
    ClassKeeps(config, DIGITS, CONFUSING_DIGITS);
    ClassKeeps(config, SYMBOLS, "");
    UppercaseRange();
    LowercaseRange();
    DigitsRange();
    SymbolsRange();
  }

  lemma UpperAt(c: char)
    requires 'A' <= c <= 'Z'
    ensures c in UPPERCASE
  {
    var i := c as int - 'A' as int;
    assert 0 <= i < 26 && UPPERCASE[i] == c;
  }

  lemma LowerAt(c: char)
    requires 'a' <= c <= 'z'
    ensures c in LOWERCASE
  {
    var i := c as int - 'a' as int;
    assert 0 <= i < 26 && LOWERCASE[i] == c;
  }

  lemma DigitAt(c: char)
    requires '0' <= c <= '9'
    ensures c in DIGITS
  {
    var i := c as int - '0' as int;
    assert 0 <= i < 10 && DIGITS[i] == c;
  }

  lemma LetterRanges(c: char)
    ensures c in UPPERCASE <==> 'A' <= c <= 'Z'
    ensures c in LOWERCASE <==> 'a' <= c <= 'z'
    ensures c in DIGITS <==> '0' <= c <= '9'
  {
    hide UPPERCASE, LOWERCASE, DIGITS;
    UppercaseRange();
    LowercaseRange();
    DigitsRange();
    if 'A' <= c <= 'Z' {
      UpperAt(c);
    }
    if 'a' <= c <= 'z' {
      LowerAt(c);
    }
    if '0' <= c <= '9' {
      DigitAt(c);
    }
  }

  /** Exactly which characters can be drawn, for every configuration. */
  lemma PoolIsExactly(config: PasswordConfig, c: char)
    ensures c in SetsOf(config).pool <==>
      || (config.uppercase && 'A' <= c <= 'Z' && !(config.excludeSimilar && c in "IO"))
      || (config.lowercase && 'a' <= c <= 'z' && !(config.excludeSimilar && c in "ilo"))
      || (config.digits && '0' <= c <= '9' && !(config.excludeSimilar && c in "01"))
      || (config.symbols && c in "!@#$%^&*()_+-=[]{}|;:,.<>?")
  {
    hide Class, UPPERCASE, LOWERCASE, DIGITS, SYMBOLS, CONFUSING_UPPER, CONFUSING_LOWER, CONFUSING_DIGITS, Added, SetsOf;
    PoolIsClasses(config, c);
    LetterRanges(c);
    ConfusableCharacters(c);
    ClassKeeps(config, UPPERCASE, CONFUSING_UPPER);
    ClassKeeps(config, LOWERCASE, CONFUSING_LOWER);
    ClassKeeps(config, DIGITS, CONFUSING_DIGITS);
    ClassKeeps(config, SYMBOLS, "");
  }

  lemma ConfusableCharacters(c: char)
    ensures c in CONFUSING_UPPER <==> c in "IO"
    ensures c in CONFUSING_LOWER <==> c in "ilo"
    ensures c in CONFUSING_DIGITS <==> c in "01"
    ensures c in SYMBOLS <==> c in "!@#$%^&*()_+-=[]{}|;:,.<>?"
  {}

  lemma PoolIsClasses(config: PasswordConfig, c: char)
    ensures c in SetsOf(config).pool <==>
      || (config.uppercase && c in Class(config, UPPERCASE, CONFUSING_UPPER))
      || (config.lowercase && c in Class(config, LOWERCASE, CONFUSING_LOWER))
      || (config.digits && c in Class(config, DIGITS, CONFUSING_DIGITS))
      || (config.symbols && c in Class(config, SYMBOLS, ""))
  {
    hide Class, UPPERCASE, LOWERCASE, DIGITS, SYMBOLS, CONFUSING_UPPER, CONFUSING_LOWER, CONFUSING_DIGITS;
  }

  /** What the pool may hold: nothing confusable once similar characters are excluded. */
  lemma PoolHasNoConfusables(config: PasswordConfig, c: char)
    requires config.excludeSimilar && c in SetsOf(config).pool
    ensures c !in CONFUSING_UPPER && c !in CONFUSING_LOWER && c !in CONFUSING_DIGITS
  {
    hide Class, UPPERCASE, LOWERCASE, DIGITS, SYMBOLS, CONFUSING_UPPER, CONFUSING_LOWER, CONFUSING_DIGITS, SetsOf;
    SetsAreEnabledClasses(config);
    ClassKeeps(config, UPPERCASE, CONFUSING_UPPER);
    ClassKeeps(config, LOWERCASE, CONFUSING_LOWER);
    ClassKeeps(config, DIGITS, CONFUSING_DIGITS);
    ClassContents(config);
    UppercaseRange();
    LowercaseRange();
    DigitsRange();
    var k :| 0 <= k < |EnabledClasses(config)| && c in EnabledClasses(config)[k];
  }

  // ---------- what is drawn ----------

  function DrawnFromPool(pool: string, rng: Draws, n: nat): string
    requires pool != []
  {
    seq(n, i requires 0 <= i < n => pool[Draw(rng, i, |pool|)])
  }

  /** Where the character of class `k` is written, in a password of length `n`. */
  function WritePosition(rng: Draws, n: nat, k: nat): (pos: nat)
    requires n > 0
    ensures pos < n
  {
    Draw(rng, n + 2 * k, n)
  }

  function WrittenChar(required: seq<string>, rng: Draws, n: nat, k: nat): (c: char)
    requires k < |required| && required[k] != []
    ensures c in required[k]
  {
    required[k][Draw(rng, n + 2 * k + 1, |required[k]|)]
  }

  ghost predicate AllNonEmpty(required: seq<string>) {
    forall k :: 0 <= k < |required| ==> required[k] != []
  }

  /** The password after the writes of the first `k` classes. */
  function Written(base: string, required: seq<string>, rng: Draws, k: nat): (s: string)
    requires base != [] && k <= |required| && AllNonEmpty(required)
    ensures |s| == |base|
  {
    if k == 0 then base
    else
      Written(base, required, rng, k - 1)[WritePosition(rng, |base|, k - 1) := WrittenChar(required, rng, |base|, k - 1)]
  }

  /** A position shows the last write to it, or the original draw if there is none. */
  lemma {:induction false} LastWriteStays(base: string, required: seq<string>, rng: Draws, k: nat, q: nat)
    requires base != [] && k <= |required| && AllNonEmpty(required) && q < |base|
    ensures var c, n := Written(base, required, rng, k)[q], |base|;
      || (c == base[q] && forall j :: 0 <= j < k ==> WritePosition(rng, n, j) != q)
      || (exists j :: 0 <= j < k && WritePosition(rng, n, j) == q && c in required[j]
            && forall l :: j < l < k ==> WritePosition(rng, n, l) != q)
  {
    hide WritePosition, WrittenChar;
    if k > 0 {
      LastWriteStays(base, required, rng, k - 1, q);
      if WritePosition(rng, |base|, k - 1) == q {
        assert WrittenChar(required, rng, |base|, k - 1) in required[k - 1];
      }
    }
  }

  lemma {:induction false} LastWriteWins(base: string, required: seq<string>, rng: Draws, k: nat, j: nat)
    requires base != [] && j < k <= |required| && AllNonEmpty(required)
    requires forall l :: j < l < k ==> WritePosition(rng, |base|, l) != WritePosition(rng, |base|, j)
    ensures Written(base, required, rng, k)[WritePosition(rng, |base|, j)] == WrittenChar(required, rng, |base|, j)
  {
    if k > j + 1 {
      LastWriteWins(base, required, rng, k - 1, j);
    }
  }

  lemma {:induction false} UnwrittenStays(base: string, required: seq<string>, rng: Draws, k: nat, q: nat)
    requires base != [] && k <= |required| && AllNonEmpty(required) && q < |base|
    requires forall j :: 0 <= j < k ==> WritePosition(rng, |base|, j) != q
    ensures Written(base, required, rng, k)[q] == base[q]
  {
    if k > 0 {
      UnwrittenStays(base, required, rng, k - 1, q);
    }
  }

  /** The password before the shuffle. */
  function Filled(config: PasswordConfig, rng: Draws): (s: string)
    requires ConfigError(config).None?
    ensures |s| == config.length
  {
    var sets := SetsOf(config);
    SetsAreEnabledClasses(config);
    assert EnabledClasses(config)[0] != [];
    assert EnabledClasses(config)[0][0] in sets.pool;
    Written(DrawnFromPool(sets.pool, rng, config.length), sets.required, rng, |sets.required|)
  }

  ghost predicate HasClass(s: string, chars: string) {
    exists q :: 0 <= q < |s| && s[q] in chars
  }

  /** No later class is written over class `k`. */
  ghost predicate NotOverwritten(config: PasswordConfig, rng: Draws, k: nat)
    requires ConfigError(config).None?
  {
    forall l :: k < l < |EnabledClasses(config)| ==>
      WritePosition(rng, config.length, l) != WritePosition(rng, config.length, k)
  }

  /** Some position that no class is written to drew a character of class `k` from the pool. */
  ghost predicate DrawnAnyway(config: PasswordConfig, rng: Draws, k: nat)
    requires ConfigError(config).None? && k < |EnabledClasses(config)| && SetsOf(config).pool != []
  {
    exists q :: 0 <= q < config.length
      && (forall j :: 0 <= j < |EnabledClasses(config)| ==> WritePosition(rng, config.length, j) != q)
      && DrawnFromPool(SetsOf(config).pool, rng, config.length)[q] in EnabledClasses(config)[k]
  }

  lemma PoolIsNotEmpty(config: PasswordConfig)
    requires ConfigError(config).None?
    ensures SetsOf(config).pool != []
  {
    SetsAreEnabledClasses(config);
    assert EnabledClasses(config)[0] != [];
    assert EnabledClasses(config)[0][0] in SetsOf(config).pool;
  }

  /**
   * Exactly when an enabled class is present: its own character was not written over by a later
   * class, or it was drawn anyway at a position nothing was written to.
   */
  lemma ClassIsPresentIff(config: PasswordConfig, rng: Draws, k: nat)
    requires ConfigError(config).None? && k < |EnabledClasses(config)|
    ensures SetsOf(config).pool != []
    ensures HasClass(Filled(config, rng), EnabledClasses(config)[k]) <==>
      NotOverwritten(config, rng, k) || DrawnAnyway(config, rng, k)
  {
    hide SetsOf, EnabledClasses, WritePosition, WrittenChar, DrawnFromPool;
    PoolIsNotEmpty(config);
    SetsAreEnabledClasses(config);
    var required, n := EnabledClasses(config), config.length;
    var base := DrawnFromPool(SetsOf(config).pool, rng, n);
    var s := Filled(config, rng);
    if NotOverwritten(config, rng, k) {
      LastWriteWins(base, required, rng, |required|, k);
      assert s[WritePosition(rng, n, k)] in required[k];
    }
    if DrawnAnyway(config, rng, k) {
      var q :| 0 <= q < n && (forall j :: 0 <= j < |required| ==> WritePosition(rng, n, j) != q) && base[q] in required[k];
      UnwrittenStays(base, required, rng, |required|, q);
      assert s[q] in required[k];
    }
    if HasClass(s, required[k]) {
      var q :| 0 <= q < n && s[q] in required[k];
      LastWriteStays(base, required, rng, |required|, q);
      if j :| 0 <= j < |required| && WritePosition(rng, n, j) == q && s[q] in required[j] &&
              (forall l :: j < l < |required| ==> WritePosition(rng, n, l) != q) {
        OnlyOneClass(config, j, k, s[q]);
      }
    }
  }

  lemma OnlyOneClass(config: PasswordConfig, i: nat, j: nat, c: char)
    requires i < |EnabledClasses(config)| && j < |EnabledClasses(config)|
    requires c in EnabledClasses(config)[i] && c in EnabledClasses(config)[j]
    ensures i == j
  {
    if i < j {
      ClassesAreDisjoint(config, i, j, c);
    } else if j < i {
      ClassesAreDisjoint(config, j, i, c);
    }
  }

  // ---------- generating ----------

  datatype PasswordResult = PasswordResult(password: string, length: int)

  /** The shuffled characters: the front shuffled first, then the last swapped with a drawn position. */
  function Shuffled(s: string, rng: Draws, from: nat): (t: string)
    ensures |t| == |s|
  {
    if |s| <= 1 then s
    else
      var n := |s| - 1;
      var w := Shuffled(s[..n], rng, from) + [s[n]];
      Swapped(w, n, Draw(rng, from + n, n + 1))
  }

  function Swapped(s: string, i: nat, j: nat): (t: string)
    requires i < |s| && j < |s|
    ensures |t| == |s|
  {
    s[i := s[j]][j := s[i]]
  }

  lemma SwappedIsPermutation(s: string, i: nat, j: nat)
    requires i < |s| && j < |s|
    ensures multiset(Swapped(s, i, j)) == multiset(s)
    ensures Swapped(Swapped(s, i, j), i, j) == s && Swapped(s, i, j)[i] == s[j]
  {}

  lemma {:induction false} ShuffledIsPermutation(s: string, rng: Draws, from: nat)
    ensures multiset(Shuffled(s, rng, from)) == multiset(s)
  {
    hide Swapped, Draw;
    if |s| > 1 {
      var n := |s| - 1;
      ShuffledIsPermutation(s[..n], rng, from);
      SwappedIsPermutation(Shuffled(s[..n], rng, from) + [s[n]], n, Draw(rng, from + n, n + 1));
      assert s == s[..n] + [s[n]];
    }
  }

  /** A shuffle looks at no other draws than its own. */
  lemma {:induction false} ShuffledReads(s: string, a: Draws, b: Draws, from: nat)
    requires forall k :: from < k < from + |s| ==> a(k) == b(k)
    ensures Shuffled(s, a, from) == Shuffled(s, b, from)
  {
    if |s| > 1 {
      ShuffledReads(s[..|s| - 1], a, b, from);
    }
  }

  /** Every arrangement of the characters is reached by some draws, whatever the draws before and after. */
  lemma {:induction false} EveryArrangementIsReached(s: string, t: string, rng: Draws, from: nat) returns (found: Draws)
    requires multiset(s) == multiset(t)
    ensures Shuffled(s, found, from) == t
    ensures forall k: nat :: !(from < k < from + |s|) ==> found(k) == rng(k)
  {
    hide Shuffled;
    SameLength(s, t);
    found := rng;
    if |s| <= 1 {
      OneArrangement(s, t, rng, from);
    } else {
      var n := |s| - 1;
      var j, w := SwapBack(s, t);
      var front := EveryArrangementIsReached(s[..n], w, rng, from);
      found := k => if k == from + n then j else front(k);
      ShuffledReads(s[..n], found, front, from);
      SwapForth(s, t, found, from, j, w);
    }
  }

  /** The arrangement before the last swap, which brings the last character of `s` to where `t` has it. */
  lemma SwapBack(s: string, t: string) returns (j: nat, w: string)
    requires |s| == |t| > 0 && multiset(s) == multiset(t)
    ensures j < |t| && w + [s[|s| - 1]] == Swapped(t, |s| - 1, j)
    ensures multiset(s[..|s| - 1]) == multiset(w)
  {
    hide Swapped;
    var n := |s| - 1;
    assert s[n] in multiset(t);
    j :| 0 <= j < |t| && t[j] == s[n];
    var u := Swapped(t, n, j);
    w := u[..n];
    SwappedIsPermutation(t, n, j);
    FrontsAgree(s, u);
    assert u == w + [u[n]];
  }

  lemma SwapForth(s: string, t: string, rng: Draws, from: nat, j: nat, w: string)
    requires |s| == |t| > 1 && j < |t| && rng(from + |s| - 1) == j
    requires w + [s[|s| - 1]] == Swapped(t, |s| - 1, j) && Shuffled(s[..|s| - 1], rng, from) == w
    ensures Shuffled(s, rng, from) == t
  {
    SwappedIsPermutation(t, |s| - 1, j);
    hide Swapped, Draw;
    DrawIs(rng, from + |s| - 1, |s|, j);
  }

  lemma OneArrangement(s: string, t: string, rng: Draws, from: nat)
    requires multiset(s) == multiset(t) && |s| == |t| <= 1
    ensures Shuffled(s, rng, from) == t
  {
    if |s| == 1 {
      assert s[0] in multiset(t);
    }
  }

  lemma FrontsAgree(s: string, t: string)
    requires |s| == |t| > 0 && multiset(s) == multiset(t) && s[|s| - 1] == t[|t| - 1]
    ensures multiset(s[..|s| - 1]) == multiset(t[..|t| - 1])
  {
    var n := |s| - 1;
    assert s == s[..n] + [s[n]] && t == t[..n] + [t[n]];
    assert multiset(s) == multiset(s[..n]) + multiset{s[n]} && multiset(t) == multiset(t[..n]) + multiset{t[n]};
    assert multiset(s[..n]) == multiset(s) - multiset{s[n]};
  }

  lemma {:induction false} ShuffledInPlace(s: string, rng: Draws, from: nat)
    requires forall k: nat :: from < k < from + |s| ==> rng(k) == k - from
    ensures Shuffled(s, rng, from) == s
  {
    hide Draw;
    if |s| > 1 {
      var n := |s| - 1;
      ShuffledInPlace(s[..n], rng, from);
      DrawIs(rng, from + n, n + 1, n);
      assert s == s[..n] + [s[n]];
    }
  }

  /** `std::shuffle`: each position is swapped with a drawn one that is not behind it. */
  method Shuffle(s: string, rng: Draws, from: nat) returns (shuffled: string)
    ensures shuffled == Shuffled(s, rng, from)
    ensures multiset(shuffled) == multiset(s)
  {
    hide Shuffled, Draw;
    ShuffledIsPermutation(s, rng, from);
    ShuffledStart(s, rng, from);
    shuffled := s;
    if s == [] {
      return;
    }
    for i := 1 to |s|
      invariant shuffled == Shuffled(s[..i], rng, from) + s[i..]
    {
      ShuffledOneMore(s, i, rng, from);
      assert |shuffled| == |s|;
      var j := Draw(rng, from + i, i + 1);
      shuffled := shuffled[i := shuffled[j]][j := shuffled[i]];
    }
    assert s[..|s|] == s;
  }

  lemma ShuffledStart(s: string, rng: Draws, from: nat)
    ensures Shuffled([], rng, from) == []
    ensures s != [] ==> Shuffled(s[..1], rng, from) + s[1..] == s
  {}

  lemma ShuffledOneMore(s: string, i: nat, rng: Draws, from: nat)
    requires 0 < i < |s|
    ensures Shuffled(s[..i + 1], rng, from) + s[i + 1..]
      == Swapped(Shuffled(s[..i], rng, from) + s[i..], i, Draw(rng, from + i, i + 1))
  {
    assert s[..i + 1][..i] == s[..i];
  }

  /** What `generate` returns for a stream of draws: filled, and then shuffled by the draws after that. */
  function Generated(config: PasswordConfig, rng: Draws): string
    requires ConfigError(config).None?
  {
    Shuffled(Filled(config, rng), rng, config.length + 2 * |SetsOf(config).required|)
  }

  method Generate(config: PasswordConfig, rng: Draws) returns (r: Result<PasswordResult, string>)
    ensures r.Ok? <==>
      && 8 <= config.length <= 128
      && (config.uppercase || config.lowercase || config.digits || config.symbols)
    ensures r.Err? <==> ConfigError(config).Some?
    ensures r.Ok? ==> r.value.password == Generated(config, rng)
    ensures r.Err? ==> r.error == ConfigError(config).value
    ensures r.Ok? ==> r.value.length == config.length && multiset(r.value.password) == multiset(Filled(config, rng))
  {
    hide SetsOf, EnabledClasses, ConfigError, Shuffled, Written, DrawnFromPool;
    ConfigIsSane(config);
    var error := ConfigError(config);
    if error.Some? {
      return Err(error.value);
    }
    var sets := BuildCharacterSets(config);
    PoolIsNotEmpty(config);
    SetsAreEnabledClasses(config);
    if sets.pool == [] {
      return Err("Character pool is empty");
    }
    var password := FillPassword(sets, rng, config.length);
    password := Shuffle(password, rng, config.length + 2 * |sets.required|);
    SameLength(password, Filled(config, rng));
    return Ok(PasswordResult(password, |password|));
  }

  /** Draws every character from the pool, then writes one of each class over some position. */
  method FillPassword(sets: CharacterSets, rng: Draws, n: nat) returns (password: string)
    requires n > 0 && sets.pool != [] && AllNonEmpty(sets.required)
    ensures password == Written(DrawnFromPool(sets.pool, rng, n), sets.required, rng, |sets.required|)
  {
    password := "";
    for i := 0 to n
      invariant password == DrawnFromPool(sets.pool, rng, i)
    {
      password := password + [sets.pool[Draw(rng, i, |sets.pool|)]];
    }
    ghost var base := password;
    for k := 0 to |sets.required|
      invariant password == Written(base, sets.required, rng, k)
    {
      var charSet := sets.required[k];
      if charSet != [] {
        var pos := Draw(rng, n + 2 * k, n);
        password := password[pos := charSet[Draw(rng, n + 2 * k + 1, |charSet|)]];
      }
    }
  }

  lemma ConfigIsSane(config: PasswordConfig)
    ensures ConfigError(config).None? <==>
      && 8 <= config.length <= 128
      && (config.uppercase || config.lowercase || config.digits || config.symbols)
  {}

  lemma SameLength(a: string, b: string)
    requires multiset(a) == multiset(b)
    ensures |a| == |b|
  {
    assert |multiset(a)| == |a| && |multiset(b)| == |b|;
  }

  /** The passwords of a batch, each from its own stretch of the draws; the first error ends it. */
  method GenerateBatch(config: PasswordConfig, count: int, streams: nat -> Draws)
    returns (r: Result<seq<PasswordResult>, string>)
    ensures r.Ok? <==> count > 0 && ConfigError(config).None?
    ensures r.Err? ==> r.error == if count <= 0 then "Count must be positive" else ConfigError(config).value
    ensures r.Ok? ==> |r.value| == count && forall i :: 0 <= i < count ==>
      r.value[i].length == config.length && multiset(r.value[i].password) == multiset(Filled(config, streams(i)))
  {
    hide ConfigError, Filled;
    if count <= 0 {
      return Err("Count must be positive");
    }
    var results: seq<PasswordResult> := [];
    for i := 0 to count
      invariant |results| == i && (i > 0 ==> ConfigError(config).None?)
      invariant forall j :: 0 <= j < i ==>
        results[j].length == config.length && multiset(results[j].password) == multiset(Filled(config, streams(j)))
    {
      var one := Generate(config, streams(i));
      if one.Err? {
        return Err(one.error);
      }
      results := results + [one.value];
    }
    return Ok(results);
  }

  // ---------- what a generated password is ----------

  lemma {:induction false} WrittenFromPool(base: string, sets: CharacterSets, rng: Draws, k: nat)
    requires base != [] && k <= |sets.required| && AllNonEmpty(sets.required) && PoolIsUnion(sets)
    requires forall q :: 0 <= q < |base| ==> base[q] in sets.pool
    ensures forall q :: 0 <= q < |base| ==> Written(base, sets.required, rng, k)[q] in sets.pool
  {
    if k > 0 {
      WrittenFromPool(base, sets, rng, k - 1);
    }
  }

  lemma ShuffleKeepsClasses(s: string, t: string, chars: string)
    requires multiset(s) == multiset(t)
    ensures HasClass(s, chars) ==> HasClass(t, chars)
  {
    if HasClass(s, chars) {
      var q :| 0 <= q < |s| && s[q] in chars;
      assert s[q] in multiset(s);
      assert s[q] in t;
    }
  }

  /** Length, alphabet, and the absence of confusable characters, for every stream of draws. */
  lemma PasswordAlphabet(config: PasswordConfig, rng: Draws, password: string)
    requires ConfigError(config).None? && multiset(password) == multiset(Filled(config, rng))
    ensures |password| == config.length
    ensures forall c :: c in password ==> c in SetsOf(config).pool
    ensures config.excludeSimilar ==>
      forall c :: c in password ==> c !in CONFUSING_UPPER && c !in CONFUSING_LOWER && c !in CONFUSING_DIGITS
  {
    hide SetsOf, EnabledClasses, Filled;
    SameLength(password, Filled(config, rng));
    FilledFromPool(config, rng);
    forall c | c in password ensures c in SetsOf(config).pool {
      assert c in multiset(password);
      assert c in Filled(config, rng);
    }
    if config.excludeSimilar {
      forall c | c in password
        ensures c !in CONFUSING_UPPER && c !in CONFUSING_LOWER && c !in CONFUSING_DIGITS
      {
        PoolHasNoConfusables(config, c);
      }
    }
  }

  lemma FilledFromPool(config: PasswordConfig, rng: Draws)
    requires ConfigError(config).None?
    ensures forall c :: c in Filled(config, rng) ==> c in SetsOf(config).pool
  {
    hide SetsOf, EnabledClasses;
    PoolIsNotEmpty(config);
    SetsAreEnabledClasses(config);
    var sets := SetsOf(config);
    WrittenFromPool(DrawnFromPool(sets.pool, rng, config.length), sets, rng, |sets.required|);
  }

  /**
   * Which classes the shuffled password has: exactly those that survive the writes. The last
   * enabled class always does, and all do if no two were written to the same position.
   */
  lemma PasswordClasses(config: PasswordConfig, rng: Draws, password: string, k: nat)
    requires ConfigError(config).None? && multiset(password) == multiset(Filled(config, rng))
    requires k < |EnabledClasses(config)|
    ensures SetsOf(config).pool != []
    ensures HasClass(password, EnabledClasses(config)[k]) <==> NotOverwritten(config, rng, k) || DrawnAnyway(config, rng, k)
    ensures k == |EnabledClasses(config)| - 1 ==> HasClass(password, EnabledClasses(config)[k])
    ensures (forall i, j :: 0 <= i < j < |EnabledClasses(config)| ==>
        WritePosition(rng, config.length, i) != WritePosition(rng, config.length, j))
      ==> HasClass(password, EnabledClasses(config)[k])
  {
    hide SetsOf, EnabledClasses, Filled, WritePosition, DrawnAnyway;
    ClassIsPresentIff(config, rng, k);
    ShuffleKeepsClasses(password, Filled(config, rng), EnabledClasses(config)[k]);
    ShuffleKeepsClasses(Filled(config, rng), password, EnabledClasses(config)[k]);
  }

  function FirstAt(s: string, c: char): (i: nat)
    requires c in s
    ensures i < |s| && s[i] == c
  {
    FindFrom(s, (x: char) => x == c, 0)
  }

  /** Draws that give `target`: its characters from the pool, every write to position `q`, and no swaps. */
  function DrawsFor(target: string, pool: string, required: seq<string>, q: nat): Draws
    requires q < |target| && (forall i :: 0 <= i < |target| ==> target[i] in pool)
    requires required != [] && target[q] in required[|required| - 1]
  {
    var n, m := |target|, |required|;
    (k: nat) =>
      if k < n then FirstAt(pool, target[k])
      else if k < n + 2 * m then (if (k - n) % 2 == 0 then q else FirstAt(required[m - 1], target[q]))
      else k - (n + 2 * m)
  }

  lemma TargetIsWritten(target: string, pool: string, required: seq<string>, q: nat)
    requires q < |target| && (forall i :: 0 <= i < |target| ==> target[i] in pool)
    requires required != [] && AllNonEmpty(required) && target[q] in required[|required| - 1]
    ensures pool != []
    ensures var rng, n, m := DrawsFor(target, pool, required, q), |target|, |required|;
      Written(DrawnFromPool(pool, rng, n), required, rng, m) == target
  {
    hide Written, DrawnFromPool, WritePosition, WrittenChar, DrawsFor;
    var rng, n, m := DrawsFor(target, pool, required, q), |target|, |required|;
    assert target[q] in pool;
    TargetIsDrawn(target, pool, required, q);
    WritesAreAt(target, pool, required, q);
    LastWriteWins(target, required, rng, m, m - 1);
    forall p | 0 <= p < n && p != q ensures Written(target, required, rng, m)[p] == target[p] {
      UnwrittenStays(target, required, rng, m, p);
    }
  }

  /** Every string over the pool is drawn by some draws, one for each of its positions. */
  lemma TargetIsDrawn(target: string, pool: string, required: seq<string>, q: nat)
    requires q < |target| && (forall i :: 0 <= i < |target| ==> target[i] in pool)
    requires required != [] && target[q] in required[|required| - 1] && pool != []
    ensures DrawnFromPool(pool, DrawsFor(target, pool, required, q), |target|) == target
  {
    hide Draw;
    var rng := DrawsFor(target, pool, required, q);
    forall i | 0 <= i < |target| ensures pool[Draw(rng, i, |pool|)] == target[i] {
      DrawIs(rng, i, |pool|, FirstAt(pool, target[i]));
    }
  }

  lemma WritesAreAt(target: string, pool: string, required: seq<string>, q: nat)
    requires q < |target| && (forall i :: 0 <= i < |target| ==> target[i] in pool)
    requires required != [] && AllNonEmpty(required) && target[q] in required[|required| - 1]
    ensures var rng, n, m := DrawsFor(target, pool, required, q), |target|, |required|;
      && (forall k :: 0 <= k < m ==> WritePosition(rng, n, k) == q)
      && WrittenChar(required, rng, n, m - 1) == target[q]
  {
    var rng, n, m := DrawsFor(target, pool, required, q), |target|, |required|;
    forall k | 0 <= k < m ensures WritePosition(rng, n, k) == q {
      assert (n + 2 * k - n) % 2 == 0;
    }
    var last := n + 2 * (m - 1) + 1;
    assert (last - n) % 2 == 1;
    DrawIs(rng, last, |required[m - 1]|, FirstAt(required[m - 1], target[q]));
  }

  lemma DrawsForSwapNothing(target: string, pool: string, required: seq<string>, q: nat)
    requires q < |target| && (forall i :: 0 <= i < |target| ==> target[i] in pool)
    requires required != [] && target[q] in required[|required| - 1]
    ensures var rng := DrawsFor(target, pool, required, q);
      Shuffled(target, rng, |target| + 2 * |required|) == target
  {
    var rng := DrawsFor(target, pool, required, q);
    ShuffledInPlace(target, rng, |target| + 2 * |required|);
  }

  /**
   * Exactly which passwords some stream of draws generates: those of the configured length over
   * the pool that have a character of the last enabled class. No other class is guaranteed.
   */
  lemma PasswordIsPossibleIff(config: PasswordConfig, password: string)
    requires ConfigError(config).None?
    ensures EnabledClasses(config) != []
    ensures (exists rng :: Generated(config, rng) == password) <==>
      && |password| == config.length
      && (forall c :: c in password ==> c in SetsOf(config).pool)
      && HasClass(password, EnabledClasses(config)[|EnabledClasses(config)| - 1])
  {
    hide SetsOf, EnabledClasses, Filled, Shuffled, DrawsFor, ConfigError, DrawnAnyway, NotOverwritten;
    SomeClassIsEnabled(config);
    var required := EnabledClasses(config);
    var m := |required|;
    if rng :| Generated(config, rng) == password {
      ShuffledIsPermutation(Filled(config, rng), rng, config.length + 2 * |SetsOf(config).required|);
      PasswordAlphabet(config, rng, password);
      PasswordClasses(config, rng, password, m - 1);
    }
    if && |password| == config.length
       && (forall c :: c in password ==> c in SetsOf(config).pool)
       && HasClass(password, required[m - 1])
    {
      var rng := FoundDraws(config, password);
      assert Generated(config, rng) == password;
    }
  }

  lemma SomeClassIsEnabled(config: PasswordConfig)
    requires ConfigError(config).None?
    ensures EnabledClasses(config) != []
  {}

  lemma FoundDraws(config: PasswordConfig, password: string) returns (rng: Draws)
    requires ConfigError(config).None? && EnabledClasses(config) != []
    requires |password| == config.length && forall c :: c in password ==> c in SetsOf(config).pool
    requires HasClass(password, EnabledClasses(config)[|EnabledClasses(config)| - 1])
    ensures Generated(config, rng) == password
  {
    hide SetsOf, EnabledClasses, Shuffled, DrawsFor, ConfigError, Written, DrawnFromPool;
    SetsAreEnabledClasses(config);
    var pool, required := SetsOf(config).pool, EnabledClasses(config);
    var q :| 0 <= q < |password| && password[q] in required[|required| - 1];
    rng := DrawsFor(password, pool, required, q);
    TargetIsWritten(password, pool, required, q);
    DrawsForSwapNothing(password, pool, required, q);
  }

  const LETTERS_ONLY := PasswordConfig(8, true, true, false, false, false)

  /** Eight draws of the fifth lower-case letter from the pool, and then always the first choice. */
  function UnluckyDraws(): Draws {
    i => if i < 8 then 30 else 0
  }

  lemma LettersOnlySets()
    ensures EnabledClasses(LETTERS_ONLY) == [UPPERCASE, LOWERCASE]
    ensures SetsOf(LETTERS_ONLY).pool == UPPERCASE + LOWERCASE
  {
    hide UPPERCASE, LOWERCASE, DIGITS, SYMBOLS, FilterOut;
    ClassesAreNotEmpty(LETTERS_ONLY);
  }

  lemma UnluckyPool()
    ensures |UPPERCASE + LOWERCASE| == 52 && !IsUpper((UPPERCASE + LOWERCASE)[30])
  {
    assert (UPPERCASE + LOWERCASE)[30] == LOWERCASE[4];
  }

  /** Presence is not guaranteed: two classes written to one position, and no luck with the pool. */
  lemma ClassCanBeLost()
    ensures ConfigError(LETTERS_ONLY).None?
    ensures !HasClass(Filled(LETTERS_ONLY, UnluckyDraws()), UPPERCASE)
  {
    hide UPPERCASE, LOWERCASE, SetsOf, EnabledClasses, Filled;
    var rng, pool := UnluckyDraws(), SetsOf(LETTERS_ONLY).pool;
    LettersOnlySets();
    UnluckyPool();
    UppercaseRange();
    ClassIsPresentIff(LETTERS_ONLY, rng, 0);
    assert WritePosition(rng, 8, 0) == 0 && WritePosition(rng, 8, 1) == 0;
    forall q | 0 <= q < 8 ensures DrawnFromPool(pool, rng, 8)[q] !in UPPERCASE {
      assert Draw(rng, q, 52) == 30;
    }
  }
}
