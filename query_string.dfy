/**
 * The query-string reader of the web client's authentication module.
 *
 * `getQueryStringObject` runs the global regular expression
 * `\.*[?&]([a-zA-Z0-9]*)=([^?=&]*)` over a location's search string with
 * repeated `exec` calls and stores every match as `key -> value`.
 *
 * The leading `\.*` never changes a capture or the position where scanning
 * resumes: a run of dots cannot contain `?` or `&`, so a match that starts
 * at a dot is the match that starts at the `?` or `&` after those dots.
 * The model therefore looks for matches at the separator itself.
 */
module Auth {
  import opened Wrappers

  predicate IsSeparator(c: char) {
    c == '?' || c == '&'
  }

  /** The character class `[a-zA-Z0-9]` of a key. */
  predicate IsKeyChar(c: char) {
    ('a' <= c <= 'z') || ('A' <= c <= 'Z') || ('0' <= c <= '9')
  }

  /** The character class `[^?=&]` of a value. */
  predicate IsValueChar(c: char) {
    c != '?' && c != '=' && c != '&'
  }

  /** The end of the longest run of key characters that starts at `j`. */
  function KeyEnd(s: string, j: nat): (e: nat)
    requires j <= |s|
    ensures j <= e <= |s|
    ensures forall k :: j <= k < e ==> IsKeyChar(s[k])
    ensures e == |s| || !IsKeyChar(s[e])
    decreases |s| - j
  {
    if j < |s| && IsKeyChar(s[j]) then KeyEnd(s, j + 1) else j
  }

  /** The end of the longest run of value characters that starts at `j`. */
  function ValueEnd(s: string, j: nat): (e: nat)
    requires j <= |s|
    ensures j <= e <= |s|
    ensures forall k :: j <= k < e ==> IsValueChar(s[k])
    ensures e == |s| || !IsValueChar(s[e])
    decreases |s| - j
  {
    if j < |s| && IsValueChar(s[j]) then ValueEnd(s, j + 1) else j
  }

  /**
   * The regular expression matches at position `q`: a `?` or `&`, then a
   * (possibly empty) key, then `=`. Greedy matching of the key cannot back
   * off usefully, since a shorter key is followed by a key character.
   */
  predicate MatchAt(s: string, q: nat) {
    q < |s| && IsSeparator(s[q]) && KeyEnd(s, q + 1) < |s| && s[KeyEnd(s, q + 1)] == '='
  }

  /** The first capture group of the match at `q`. */
  function KeyCapture(s: string, q: nat): (k: string)
    requires MatchAt(s, q)
    ensures forall i :: 0 <= i < |k| ==> IsKeyChar(k[i])
    ensures q + 1 + |k| < |s| && s[q + 1 .. q + 1 + |k|] == k && s[q + 1 + |k|] == '='
  {
    s[q + 1 .. KeyEnd(s, q + 1)]
  }

  /** The position right after the `=` of the match at `q`. */
  function ValueStart(s: string, q: nat): (v: nat)
    requires MatchAt(s, q)
    ensures q + 2 <= v <= |s| && s[v - 1] == '='
  {
    KeyEnd(s, q + 1) + 1
  }

  /** The second capture group of the match at `q`: the longest run of value characters after the `=`. */
  function ValueCapture(s: string, q: nat): (v: string)
    requires MatchAt(s, q)
    ensures forall i :: 0 <= i < |v| ==> IsValueChar(v[i])
    ensures ValueStart(s, q) + |v| <= |s| && s[ValueStart(s, q) .. ValueStart(s, q) + |v|] == v
    ensures ValueStart(s, q) + |v| == |s| || !IsValueChar(s[ValueStart(s, q) + |v|])
  {
    s[ValueStart(s, q) .. ValueEnd(s, ValueStart(s, q))]
  }

  /** Where the match at `q` ends: the regular expression's `lastIndex` after it. */
  function MatchEnd(s: string, q: nat): (e: nat)
    requires MatchAt(s, q)
    ensures q + 2 <= e <= |s|
    ensures e == ValueStart(s, q) + |ValueCapture(s, q)|
  {
    ValueEnd(s, ValueStart(s, q))
  }

  /** One result of `exec`: where the match starts, its two captures, and the new `lastIndex`. */
  datatype Match = Match(start: nat, key: string, value: string, end: nat)

  /**
   * The reference object: every match position below `n`, taken in order,
   * with a later match overwriting an earlier one of the same key.
   */
  function QueryObject(s: string, n: nat): map<string, string>
    requires n <= |s|
  {
    if n == 0 then map[]
    else
      var m := QueryObject(s, n - 1);
      if MatchAt(s, n - 1) then m[KeyCapture(s, n - 1) := ValueCapture(s, n - 1)] else m
  }

  /** Positions without a match leave the reference object unchanged. */
  lemma {:induction false} QueryObjectSkip(s: string, a: nat, b: nat)
    requires a <= b <= |s|
    requires forall q :: a <= q < b ==> !MatchAt(s, q)
    ensures QueryObject(s, b) == QueryObject(s, a)
    decreases b - a
  {
    if a < b {
      QueryObjectSkip(s, a, b - 1);
    }
  }

  /** Between the separator of a match and its end there is no other separator, so no other match. */
  lemma NoMatchInside(s: string, q: nat)
    requires MatchAt(s, q)
    ensures forall p :: q < p < MatchEnd(s, q) ==> !MatchAt(s, p)
  {
    forall p | q < p < MatchEnd(s, q)
      ensures !IsSeparator(s[p])
    {
      var ke := KeyEnd(s, q + 1);
      if p < ke {
        assert IsKeyChar(s[p]);
      } else if p == ke {
        assert s[p] == '=';
      } else {
        assert IsValueChar(s[p]);
      }
    }
  }

  /**
   * One call of `regex.exec(queryString)` on the global expression, starting
   * at `lastIndex`: the leftmost match at or after `lastIndex`, if any.
   */
  method Exec(s: string, lastIndex: nat) returns (r: Option<Match>)
    ensures r.Some? ==> lastIndex <= r.value.start && MatchAt(s, r.value.start)
    ensures r.Some? ==> r.value == Match(r.value.start, KeyCapture(s, r.value.start), ValueCapture(s, r.value.start), MatchEnd(s, r.value.start))
    ensures forall q :: lastIndex <= q < (if r.Some? then r.value.start else |s|) ==> !MatchAt(s, q)
  {
    var q := lastIndex;
    while q < |s|
      invariant lastIndex <= q
      invariant forall p :: lastIndex <= p < q ==> !MatchAt(s, p)
      decreases |s| - q
    {
      if MatchAt(s, q) {
        return Some(Match(q, KeyCapture(s, q), ValueCapture(s, q), MatchEnd(s, q)));
      }
      q := q + 1;
    }
    return None;
  }

  /**
   * `getQueryStringObject`: repeats `exec` until it fails, storing each
   * match. The result is the reference object of the whole string.
   */
  method GetQueryStringObject(queryString: string) returns (queryStringObj: map<string, string>)
    ensures queryStringObj == QueryObject(queryString, |queryString|)
  {
    queryStringObj := map[];
    var lastIndex := 0;
    var result := Exec(queryString, lastIndex);
    while result.Some?
      invariant lastIndex <= |queryString|
      invariant queryStringObj == QueryObject(queryString, lastIndex)
      invariant result.Some? ==> lastIndex <= result.value.start && MatchAt(queryString, result.value.start)
      invariant result.Some? ==> result.value == Match(result.value.start, KeyCapture(queryString, result.value.start),
                                                       ValueCapture(queryString, result.value.start), MatchEnd(queryString, result.value.start))
      invariant forall q :: lastIndex <= q < (if result.Some? then result.value.start else |queryString|) ==> !MatchAt(queryString, q)
      decreases |queryString| - lastIndex
    {
      var q := result.value.start;
      QueryObjectSkip(queryString, lastIndex, q);
      NoMatchInside(queryString, q);
      QueryObjectSkip(queryString, q + 1, result.value.end);
      queryStringObj := queryStringObj[result.value.key := result.value.value];
      lastIndex := result.value.end;
      result := Exec(queryString, lastIndex);
    }
    QueryObjectSkip(queryString, lastIndex, |queryString|);
  }

  /** A key is in the object exactly when some match below `n` captured it. */
  lemma {:induction false} QueryObjectKeys(s: string, n: nat, k: string)
    requires n <= |s|
    ensures k in QueryObject(s, n) <==> exists q: nat :: q < n && MatchAt(s, q) && KeyCapture(s, q) == k
  {
    if n > 0 {
      QueryObjectKeys(s, n - 1, k);
      if MatchAt(s, n - 1) && KeyCapture(s, n - 1) == k {
        assert k in QueryObject(s, n);
      }
    }
  }

  /** The value stored under a key is the value of the last match that captured that key. */
  lemma {:induction false} QueryObjectLastWins(s: string, n: nat, q: nat)
    requires n <= |s| && q < n && MatchAt(s, q)
    requires forall p :: q < p < n && MatchAt(s, p) ==> KeyCapture(s, p) != KeyCapture(s, q)
    ensures KeyCapture(s, q) in QueryObject(s, n) && QueryObject(s, n)[KeyCapture(s, q)] == ValueCapture(s, q)
  {
    if q < n - 1 {
      QueryObjectLastWins(s, n - 1, q);
    }
  }

  /** Every key of the object is alphanumeric and every value is free of `?`, `=` and `&`. */
  lemma {:induction false} QueryObjectWellFormed(s: string, n: nat)
    requires n <= |s|
    ensures forall k :: k in QueryObject(s, n) ==>
              (forall i :: 0 <= i < |k| ==> IsKeyChar(k[i])) &&
              (forall i :: 0 <= i < |QueryObject(s, n)[k]| ==> IsValueChar(QueryObject(s, n)[k][i]))
  {
    if n > 0 {
      QueryObjectWellFormed(s, n - 1);
    }
  }

  /** A string without `?` and `&` yields the empty object. */
  lemma NoSeparatorNoEntries(s: string)
    requires forall i :: 0 <= i < |s| ==> !IsSeparator(s[i])
    ensures QueryObject(s, |s|) == map[]
  {
    QueryObjectSkip(s, 0, |s|);
  }
}
