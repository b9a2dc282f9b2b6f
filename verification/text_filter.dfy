/** The text filter of an `on_string_data` trigger: a mode string and a
    pattern decide whether a received payload is handed to the trigger.
    The standard-library searches the filter relies on (`find`, `rfind`,
    `compare`) are modelled as the searches they are, and proved against
    plain definitions of substring, prefix and suffix. */
module TextFilter {
  import opened Types

  const MODE_NONE := "none"
  const MODE_CONTAINS := "contains"
  const MODE_STARTS_WITH := "starts_with"
  const MODE_ENDS_WITH := "ends_with"
  const MODE_EQUALS := "equals"

  /** `p` occurs in `s` starting at index `i`. */
  predicate OccursAt(p: string, s: string, i: int) {
    0 <= i && i + |p| <= |s| && s[i..i + |p|] == p
  }

  ghost predicate IsSubstring(p: string, s: string) {
    exists i :: OccursAt(p, s, i)
  }

  ghost predicate IsPrefix(p: string, s: string) {
    |p| <= |s| && s[..|p|] == p
  }

  ghost predicate IsSuffix(p: string, s: string) {
    |p| <= |s| && s[|s| - |p|..] == p
  }

  /** `s.find(p, from)`: the lowest index at or after `from` where `p`
      occurs, or `None` for `npos`. */
  function Find(s: string, p: string, from: nat): (r: Option<nat>)
    decreases |s| - from
    ensures r.Some? ==> from <= r.value && OccursAt(p, s, r.value)
    ensures r.Some? ==> forall j :: from <= j < r.value ==> !OccursAt(p, s, j)
    ensures r.None? ==> forall j :: from <= j ==> !OccursAt(p, s, j)
  {
    if from + |p| > |s| then None
    else if s[from..from + |p|] == p then Some(from)
    else Find(s, p, from + 1)
  }

  /** The backward scan of `rfind`, starting at index `i`. */
  function FindBackward(s: string, p: string, i: nat): (r: Option<nat>)
    requires i + |p| <= |s|
    ensures r.Some? ==> r.value <= i && OccursAt(p, s, r.value)
    ensures r.Some? ==> forall j :: r.value < j <= i ==> !OccursAt(p, s, j)
    ensures r.None? ==> forall j :: j <= i ==> !OccursAt(p, s, j)
  {
    if s[i..i + |p|] == p then Some(i)
    else if i == 0 then None
    else FindBackward(s, p, i - 1)
  }

  /** `s.rfind(p, pos)`: the highest index at or before `pos` where `p`
      occurs, or `None` for `npos`. */
  function RFind(s: string, p: string, pos: nat): (r: Option<nat>)
    ensures r.Some? ==> r.value <= pos && OccursAt(p, s, r.value)
    ensures r.Some? ==> forall j :: r.value < j <= pos ==> !OccursAt(p, s, j)
    ensures r.None? ==> forall j :: j <= pos ==> !OccursAt(p, s, j)
  {
    if |p| > |s| then None
    else FindBackward(s, p, if pos < |s| - |p| then pos else |s| - |p|)
  }

  /** Three-way lexicographic comparison, the sign `std::string::compare`
      returns. */
  function LexCompare(a: string, b: string): (r: int)
    ensures -1 <= r <= 1
  {
    if a == [] && b == [] then 0
    else if a == [] then -1
    else if b == [] then 1
    else if a[0] < b[0] then -1
    else if a[0] > b[0] then 1
    else LexCompare(a[1..], b[1..])
  }

  lemma {:induction false} LexCompareZeroIffEqual(a: string, b: string)
    ensures LexCompare(a, b) == 0 <==> a == b
  {
    if a != [] && b != [] && a[0] == b[0] {
      LexCompareZeroIffEqual(a[1..], b[1..]);
      assert a == [a[0]] + a[1..] && b == [b[0]] + b[1..];
    }
  }

  /** `s.compare(pos, n, p)`: compares the at most `n` characters of `s`
      from `pos` with `p`. */
  function Compare(s: string, pos: nat, n: nat, p: string): (r: int)
    requires pos <= |s|
    ensures r == 0 <==> s[pos..if n < |s| - pos then pos + n else |s|] == p
  {
    LexCompareZeroIffEqual(s[pos..if n < |s| - pos then pos + n else |s|], p);
    LexCompare(s[pos..if n < |s| - pos then pos + n else |s|], p)
  }

  /** `OnStringDataTrigger::matches_filter`. An empty pattern disables the
      filter whatever the mode, and a mode it does not know matches. */
  function Matches(mode: string, pattern: string, data: string): (m: bool)
    ensures mode == MODE_NONE || pattern == [] ==> m
    ensures !m ==> KnownMode(mode)
  {
    if mode == MODE_NONE || pattern == [] then true
    else if mode == MODE_CONTAINS then Find(data, pattern, 0).Some?
    else if mode == MODE_STARTS_WITH then RFind(data, pattern, 0) == Some(0)
    else if mode == MODE_ENDS_WITH then
      |data| >= |pattern| && Compare(data, |data| - |pattern|, |pattern|, pattern) == 0
    else if mode == MODE_EQUALS then data == pattern
    else true
  }

  ghost predicate KnownMode(mode: string) {
    mode in {MODE_NONE, MODE_CONTAINS, MODE_STARTS_WITH, MODE_ENDS_WITH, MODE_EQUALS}
  }

  lemma DisabledFilterMatchesAll(mode: string, pattern: string, data: string)
    requires mode == MODE_NONE || pattern == []
    ensures Matches(mode, pattern, data)
  {
  }

  lemma ContainsIffSubstring(pattern: string, data: string)
    ensures Matches(MODE_CONTAINS, pattern, data) <==> IsSubstring(pattern, data)
  {
    if pattern == [] {
      assert OccursAt(pattern, data, 0);
    } else if Matches(MODE_CONTAINS, pattern, data) {
      assert OccursAt(pattern, data, Find(data, pattern, 0).value);
    }
  }

  lemma StartsWithIffPrefix(pattern: string, data: string)
    ensures Matches(MODE_STARTS_WITH, pattern, data) <==> IsPrefix(pattern, data)
  {
  }

  lemma EndsWithIffSuffix(pattern: string, data: string)
    ensures Matches(MODE_ENDS_WITH, pattern, data) <==> IsSuffix(pattern, data)
  {
    if pattern != [] && |data| >= |pattern| {
      var pos := |data| - |pattern|;
      assert data[pos..|data|] == data[pos..];
      LexCompareZeroIffEqual(data[pos..], pattern);
    }
  }

  /** Shorter data never ends with a longer pattern. */
  lemma EndsWithNeedsLength(pattern: string, data: string)
    requires |data| < |pattern|
    ensures !Matches(MODE_ENDS_WITH, pattern, data)
  {
  }

  /** `equals` is exact equality, except that an empty pattern matches
      every payload. */
  lemma EqualsIffSame(pattern: string, data: string)
    ensures Matches(MODE_EQUALS, pattern, data) <==> pattern == [] || data == pattern
  {
  }

  lemma UnknownModeFailsOpen(mode: string, pattern: string, data: string)
    requires !KnownMode(mode)
    ensures Matches(mode, pattern, data)
  {
  }

  /** Worked cases for each mode. */
  lemma FilterExamples()
    ensures Matches(MODE_EQUALS, "abc", "abc")
    ensures !Matches(MODE_EQUALS, "abc", "abcd")
    ensures Matches(MODE_EQUALS, "", "abc")
    ensures Matches(MODE_STARTS_WITH, "hello", "hello world")
    ensures Matches(MODE_ENDS_WITH, "world", "hello world")
    ensures !Matches(MODE_ENDS_WITH, "hello", "hi")
    ensures Matches(MODE_CONTAINS, "oob", "foobar")
    ensures !Matches(MODE_CONTAINS, "ON", "LIGHT OFF")
    ensures Matches(MODE_NONE, "xyz", "abc")
  {
    StartsWithIffPrefix("hello", "hello world");
    EndsWithIffSuffix("world", "hello world");
    ContainsIffSubstring("oob", "foobar");
    assert OccursAt("oob", "foobar", 1);
    ContainsIffSubstring("ON", "LIGHT OFF");
    var text := "LIGHT OFF";
    forall i | 0 <= i <= |text| - 2 ensures !OccursAt("ON", text, i) {
      assert text[i..i + 2][0] == text[i] && text[i..i + 2][1] == text[i + 1];
    }
  }
}
