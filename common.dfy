/** Shared vocabulary: optional values, JavaScript truthiness of optional
    strings, and the character replacement used by both peer-id sanitisers. */
module Common {

  datatype Option<T> = None | Some(value: T)

  /** `if (s)` on a `string | null`: null and the empty string are falsy. */
  predicate Truthy(s: Option<string>) {
    s.Some? && s.value != ""
  }

  /** The character class `[0-9a-z]` under the `i` flag: ASCII digits and
      ASCII letters of either case. */
  predicate IsAlnum(c: char) {
    ('0' <= c <= '9') || ('a' <= c <= 'z') || ('A' <= c <= 'Z')
  }

  /** `s.replace(/[^0-9a-z]/gi, 'G')`: every character outside the class
      becomes 'G', every character inside it stays where it is. */
  function ReplaceNonAlnum(s: string): (r: string)
    ensures |r| == |s|
    ensures forall i :: 0 <= i < |s| ==> r[i] == (if IsAlnum(s[i]) then s[i] else 'G')
  {
    if s == [] then []
    else [if IsAlnum(s[0]) then s[0] else 'G'] + ReplaceNonAlnum(s[1..])
  }

  predicate AllAlnum(s: string) {
    forall i :: 0 <= i < |s| ==> IsAlnum(s[i])
  }

  /** The sanitised string consists of letters and digits only, and
      sanitising it again changes nothing. */
  lemma ReplaceNonAlnumIsIdempotent(s: string)
    ensures AllAlnum(ReplaceNonAlnum(s))
    ensures ReplaceNonAlnum(ReplaceNonAlnum(s)) == ReplaceNonAlnum(s)
  {
    var r := ReplaceNonAlnum(s);
    assert forall i :: 0 <= i < |r| ==> IsAlnum(r[i]);
    assert ReplaceNonAlnum(r) == r;
  }

  /** A string that is already alphanumeric is its own sanitised form. */
  lemma ReplaceNonAlnumFixesAlnum(s: string)
    requires AllAlnum(s)
    ensures ReplaceNonAlnum(s) == s
  {
  }

  /** Two different strings can share one sanitised form: the replacement is
      not injective, so sanitised ids can collide. */
  lemma ReplaceNonAlnumCollides()
    ensures ReplaceNonAlnum("a-b") == ReplaceNonAlnum("a_b") == "aGb"
  {
    assert ReplaceNonAlnum("a-b") == "aGb";
    assert ReplaceNonAlnum("a_b") == "aGb";
  }

  /** The values held in a map, such as the calls or data connections a
      forEach over the map closes. */
  function ValuesOf<K, V>(m: map<K, V>): (vs: set<V>)
    ensures forall k :: k in m ==> m[k] in vs
    ensures forall v :: v in vs ==> exists k :: k in m && m[k] == v
  {
    set k | k in m :: m[k]
  }
}
