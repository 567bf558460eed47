/** The property store `EntityProperties`: a dictionary whose comparer ignores case, filled
    by `FromString` from the first run of `"key" "value"` pairs in a block's property text,
    and compared by `Equals` regardless of key order. */
module Properties {
  import opened Wrappers
  import opened Text

  datatype Entry = Entry(key: string, value: string)

  /** Key identity under the dictionary's invariant-culture, case-insensitive comparer. */
  function Fold(k: string): string {
    Lower(k)
  }

  /** The value stored under `k`, if any (the dictionary's indexer getter; `None` is the
      `KeyNotFoundException` it throws). */
  function Lookup(es: seq<Entry>, k: string): Option<string> {
    if es == [] then None
    else if Fold(es[0].key) == Fold(k) then Some(es[0].value)
    else Lookup(es[1..], k)
  }

  predicate HasKey(es: seq<Entry>, k: string) {
    Lookup(es, k).Some?
  }

  /** The folded keys present. */
  function KeySet(es: seq<Entry>): set<string> {
    if es == [] then {} else {Fold(es[0].key)} + KeySet(es[1..])
  }

  /** No two entries share a key under the comparer: the dictionary's own invariant. */
  predicate DistinctKeys(es: seq<Entry>) {
    es == [] || (Fold(es[0].key) !in KeySet(es[1..]) && DistinctKeys(es[1..]))
  }

  lemma {:induction false} HasKeyIffInKeySet(es: seq<Entry>, k: string)
    ensures HasKey(es, k) <==> Fold(k) in KeySet(es)
  {
    if es != [] {
      HasKeyIffInKeySet(es[1..], k);
    }
  }

  lemma {:induction false} KeySetSize(es: seq<Entry>)
    requires DistinctKeys(es)
    ensures |KeySet(es)| == |es|
  {
    if es != [] {
      KeySetSize(es[1..]);
    }
  }

  /** `props[k] = v`. A key already present under the comparer keeps its position and its
      first spelling and takes the new value; a new key is appended, so enumeration stays
      in insertion order. */
  function Assign(es: seq<Entry>, k: string, v: string): (r: seq<Entry>)
    ensures Lookup(r, k) == Some(v)
    ensures forall k' :: Fold(k') != Fold(k) ==> Lookup(r, k') == Lookup(es, k')
    ensures KeySet(r) == KeySet(es) + {Fold(k)}
    ensures DistinctKeys(es) ==> DistinctKeys(r)
    ensures !HasKey(es, k) ==> r == es + [Entry(k, v)]
    ensures HasKey(es, k) ==> |r| == |es| && forall i :: 0 <= i < |es| ==> r[i].key == es[i].key
  {
    if es == [] then [Entry(k, v)]
    else if Fold(es[0].key) == Fold(k) then [Entry(es[0].key, v)] + es[1..]
    else [es[0]] + Assign(es[1..], k, v)
  }

  /** The dictionary after assigning every pair in order. */
  function Build(pairs: seq<Entry>): (es: seq<Entry>)
    ensures DistinctKeys(es)
  {
    if pairs == [] then []
    else
      var n := |pairs| - 1;
      Assign(Build(pairs[..n]), pairs[n].key, pairs[n].value)
  }

  /** Reference definition of "last write wins": the value of the last pair whose key
      matches `k` under the comparer. */
  function LastWrite(pairs: seq<Entry>, k: string): Option<string> {
    if pairs == [] then None
    else if Fold(pairs[|pairs| - 1].key) == Fold(k) then Some(pairs[|pairs| - 1].value)
    else LastWrite(pairs[..|pairs| - 1], k)
  }

  /** Filling the dictionary pair by pair keeps, for every key, the last value written to
      it under any spelling. */
  lemma {:induction false} BuildIsLastWriteWins(pairs: seq<Entry>, k: string)
    ensures Lookup(Build(pairs), k) == LastWrite(pairs, k)
  {
    if pairs != [] {
      var n := |pairs| - 1;
      BuildIsLastWriteWins(pairs[..n], k);
      if Fold(pairs[n].key) == Fold(k) {
        LookupIgnoresCase(Build(pairs), pairs[n].key, k);
      }
    }
  }

  /** Keys that differ only in case reach the same entry. */
  lemma {:induction false} LookupIgnoresCase(es: seq<Entry>, k1: string, k2: string)
    requires EqualsIgnoreCase(k1, k2)
    ensures Lookup(es, k1) == Lookup(es, k2)
  {
    if es != [] {
      LookupIgnoresCase(es[1..], k1, k2);
    }
  }

  /** The dictionary holds exactly one entry per distinct key (under the comparer) written. */
  lemma BuildKeys(pairs: seq<Entry>)
    ensures KeySet(Build(pairs)) == KeySet(pairs)
    ensures |Build(pairs)| == |KeySet(pairs)|
  {
    BuildKeySet(pairs);
    KeySetSize(Build(pairs));
  }

  lemma {:induction false} BuildKeySet(pairs: seq<Entry>)
    ensures KeySet(Build(pairs)) == KeySet(pairs)
  {
    if pairs != [] {
      var init, last := pairs[..|pairs| - 1], pairs[|pairs| - 1];
      BuildKeySet(init);
      KeySetSnoc(init, last);
      assert init + [last] == pairs;
    }
  }

  lemma {:induction false} KeySetSnoc(es: seq<Entry>, e: Entry)
    ensures KeySet(es + [e]) == KeySet(es) + {Fold(e.key)}
  {
    if es == [] {
      assert es + [e] == [e];
    } else {
      assert (es + [e])[1..] == es[1..] + [e];
      KeySetSnoc(es[1..], e);
    }
  }

  // ---------------------------------------------------------------------------
  // The pattern (\s*"([^"]+)"[ \t]+"([^"]+)")+\s* as an explicit scanner.
  // ---------------------------------------------------------------------------

  /** `"[^"]+"` at the start of `s`: the quoted text and the length consumed. */
  function Quoted(s: string): (r: Option<(string, nat)>)
    ensures r.Some? ==> 3 <= r.value.1 <= |s| && r.value.0 == s[1..r.value.1 - 1]
    ensures r.Some? ==> s[0] == '"' && s[r.value.1 - 1] == '"' && '"' !in r.value.0
    ensures r.None? ==> s == [] || s[0] != '"' || |s| < 3 || '"' !in s[1..] || s[1] == '"'
  {
    if s == [] || s[0] != '"' then None
    else
      var n := Span(s[1..], NotQuote);
      SpanPrefix(s[1..], NotQuote);
      if n == 0 || n + 1 == |s| then
        assert n + 1 == |s| ==> '"' !in s[1..] by {
          if n + 1 == |s| {
            forall i | 0 <= i < |s[1..]| ensures s[1..][i] != '"' {
              assert NotQuote(s[1..][i]);
            }
          }
        }
        None
      else
        assert s[n + 1] == '"' by {
          assert !NotQuote(s[1..][n]);
        }
        var content := s[1..n + 1];
        assert '"' !in content by {
          forall i | 0 <= i < n ensures NotQuote(content[i]) {
            assert content[i] == s[1..][i];
          }
        }
        Some((s[1..n + 1], n + 2))
  }

  /** One `"key"[ \t]+"value"` at the start of `s`: the pair and the length consumed. */
  function PairAt(s: string): (r: Option<(Entry, nat)>)
    ensures r.Some? ==> 0 < r.value.1 <= |s| && s[0] == '"'
  {
    var key :- Quoted(s);
    var b := Span(s[key.1..], IsBlank);
    if b == 0 then None
    else
      var value :- Quoted(s[key.1 + b..]);
      Some((Entry(key.0, value.0), key.1 + b + value.1))
  }

  /** The further iterations of the greedy group: skip whitespace, read a pair, repeat
      while a pair follows. */
  function RunFrom(s: string): seq<Entry>
    decreases |s|
  {
    var w := Span(s, IsSpace);
    match PairAt(s[w..])
    case None => []
    case Some(p) => [p.0] + RunFrom(s[w + p.1..])
  }

  /** The captures of the first match: the match starts at the leftmost position from which
      a pair can be read (leading whitespace only moves the start, not the pair), and the
      group repeats greedily from there. `None` when nothing matches. */
  function FirstRun(s: string): Option<seq<Entry>>
    decreases |s|
  {
    if s == [] then None
    else
      match PairAt(s)
      case Some(p) => Some([p.0] + RunFrom(s[p.1..]))
      case None => FirstRun(s[1..])
  }

  /** `EntityProperties.FromString` on values: `None` is its `null`. */
  function ParseProperties(s: string): (r: Option<seq<Entry>>)
    ensures r.Some? <==> FirstRun(s).Some?
    ensures r.Some? ==> DistinctKeys(r.value)
  {
    match FirstRun(s)
    case None => None
    case Some(pairs) => Some(Build(pairs))
  }

  /** FromString returns null exactly when no position of the text starts a pair. */
  lemma {:induction false} FirstRunNoneIff(s: string)
    ensures FirstRun(s).None? <==> forall i :: 0 <= i <= |s| ==> PairAt(s[i..]).None?
  {
    if s != [] {
      FirstRunNoneIff(s[1..]);
      assert forall i :: 1 <= i <= |s| ==> s[1..][i - 1..] == s[i..];
      assert s[0..] == s;
    } else {
      assert forall i :: 0 <= i <= |s| ==> s[i..] == [];
    }
  }

  /** The run is read from the leftmost pair: a later run, separated from the first by
      anything that does not start a pair, is ignored. */
  lemma {:induction false} FirstRunAtLeftmost(s: string, i: nat)
    requires i <= |s|
    requires forall j :: 0 <= j < i ==> PairAt(s[j..]).None?
    requires PairAt(s[i..]).Some?
    ensures FirstRun(s) == Some([PairAt(s[i..]).value.0] + RunFrom(s[i..][PairAt(s[i..]).value.1..]))
  {
    if i > 0 {
      assert s[0..] == s;
      forall j | 0 <= j < i - 1 ensures PairAt(s[1..][j..]).None? {
        assert s[1..][j..] == s[j + 1..];
      }
      assert s[1..][i - 1..] == s[i..];
      FirstRunAtLeftmost(s[1..], i - 1);
    } else {
      assert s[0..] == s;
    }
  }

  // ---------------------------------------------------------------------------
  // Equals
  // ---------------------------------------------------------------------------

  /** What `Equals` checks: same count, and every key of `a` is found in `b` (under `b`'s
      comparer) with an identical, case-sensitive value. */
  predicate SameContent(a: seq<Entry>, b: seq<Entry>) {
    |a| == |b| && forall i :: 0 <= i < |a| ==> Lookup(b, a[i].key) == Some(a[i].value)
  }

  lemma {:induction false} LookupWitness(es: seq<Entry>, k: string) returns (i: nat)
    requires HasKey(es, k)
    ensures i < |es| && Fold(es[i].key) == Fold(k) && Some(es[i].value) == Lookup(es, k)
  {
    if Fold(es[0].key) == Fold(k) {
      i := 0;
    } else {
      var j := LookupWitness(es[1..], k);
      i := j + 1;
    }
  }

  lemma {:induction false} LookupOwnKey(es: seq<Entry>, i: nat)
    requires DistinctKeys(es) && i < |es|
    ensures Lookup(es, es[i].key) == Some(es[i].value)
  {
    if i > 0 {
      LookupOwnKey(es[1..], i - 1);
      HasKeyIffInKeySet(es[1..], es[i].key);
      assert Fold(es[0].key) != Fold(es[i].key);
    }
  }

  lemma FoldedMembersAreFolded(es: seq<Entry>, x: string)
    requires x in KeySet(es)
    ensures Fold(x) == x
  {
    if Fold(es[0].key) != x {
      FoldedMembersAreFolded(es[1..], x);
    } else {
      LowerIdempotent(es[0].key);
    }
  }

  lemma SameContentGivesSameLookups(a: seq<Entry>, b: seq<Entry>, k: string)
    requires DistinctKeys(a) && DistinctKeys(b) && SameContent(a, b)
    ensures Lookup(a, k) == Lookup(b, k)
  {
    assert KeySet(a) <= KeySet(b) by {
      forall x | x in KeySet(a) ensures x in KeySet(b) {
        FoldedMembersAreFolded(a, x);
        HasKeyIffInKeySet(a, x);
        var i := LookupWitness(a, x);
        LookupIgnoresCase(b, a[i].key, x);
        HasKeyIffInKeySet(b, x);
      }
    }
    KeySetSize(a);
    KeySetSize(b);
    assert KeySet(a) == KeySet(b) by {
      assert |KeySet(b) - KeySet(a)| == |KeySet(b)| - |KeySet(a)|;
    }
    HasKeyIffInKeySet(a, k);
    HasKeyIffInKeySet(b, k);
    if HasKey(a, k) {
      var i := LookupWitness(a, k);
      LookupIgnoresCase(b, a[i].key, k);
    }
  }

  lemma SameLookupsGiveSameContent(a: seq<Entry>, b: seq<Entry>)
    requires DistinctKeys(a) && DistinctKeys(b)
    requires forall k :: Lookup(a, k) == Lookup(b, k)
    ensures SameContent(a, b)
  {
    assert KeySet(a) == KeySet(b) by {
      forall x | x in KeySet(a) ensures x in KeySet(b) {
        FoldedMembersAreFolded(a, x);
        HasKeyIffInKeySet(a, x);
        HasKeyIffInKeySet(b, x);
      }
      forall x | x in KeySet(b) ensures x in KeySet(a) {
        FoldedMembersAreFolded(b, x);
        HasKeyIffInKeySet(a, x);
        HasKeyIffInKeySet(b, x);
      }
    }
    KeySetSize(a);
    KeySetSize(b);
    forall i | 0 <= i < |a| ensures Lookup(b, a[i].key) == Some(a[i].value) {
      LookupOwnKey(a, i);
    }
  }

  /** Both dictionaries give the same answer for every key. */
  ghost predicate SameLookups(a: seq<Entry>, b: seq<Entry>) {
    forall k :: Lookup(a, k) == Lookup(b, k)
  }

  /** Equality of two property sets ignores key order: `Equals` holds exactly when both
      dictionaries give the same answer for every key. */
  lemma SameContentIffSameLookups(a: seq<Entry>, b: seq<Entry>)
    requires DistinctKeys(a) && DistinctKeys(b)
    ensures SameContent(a, b) <==> SameLookups(a, b)
  {
    if SameContent(a, b) {
      forall k ensures Lookup(a, k) == Lookup(b, k) {
        SameContentGivesSameLookups(a, b, k);
      }
    }
    if SameLookups(a, b) {
      SameLookupsGiveSameContent(a, b);
    }
  }

  /** `EntityProperties`: the dictionary, its `FromString` factory and its `Equals`. */
  class EntityProperties {
    /** The entries in enumeration (insertion) order. */
    var entries: seq<Entry>

    ghost predicate Valid()
      reads this
    {
      DistinctKeys(entries)
    }

    constructor ()
      ensures Valid() && entries == []
    {
      entries := [];
    }

    function ContainsKey(k: string): bool
      reads this
    {
      HasKey(entries, k)
    }

    /** The indexer getter; `None` is a `KeyNotFoundException`. */
    function Get(k: string): Option<string>
      reads this
    {
      Lookup(entries, k)
    }

    /** The indexer setter. */
    method Set(k: string, v: string)
      requires Valid()
      modifies this
      ensures Valid()
      ensures entries == Assign(old(entries), k, v)
    {
      entries := Assign(entries, k, v);
    }

    /** Reads the first run of pairs and stores them in capture order; `null` when the text
        holds no pair at all. */
    static method FromString(s: string) returns (props: EntityProperties?)
      ensures props == null <==> FirstRun(s).None?
      ensures props != null ==> fresh(props) && props.Valid()
      ensures props != null ==> props.entries == Build(FirstRun(s).value)
    {
      var run := FirstRun(s);
      if run.None? {
        return null;
      }
      var pairs := run.value;
      props := new EntityProperties();
      var c := 0;
      while c < |pairs|
        invariant 0 <= c <= |pairs|
        invariant props.Valid()
        invariant props.entries == Build(pairs[..c])
      {
        props.Set(pairs[c].key, pairs[c].value);
        assert pairs[..c + 1][..c] == pairs[..c];
        c := c + 1;
      }
      assert pairs[..c] == pairs;
    }

    /** `Equals(object)`: false for null, for a different count, or when some key of this
        set is missing from `other` or maps to a different value there. */
    method Equals(other: EntityProperties?) returns (eq: bool)
      ensures eq <==> other != null && SameContent(entries, other.entries)
    {
      if other == null || |entries| != |other.entries| {
        return false;
      }
      var i := 0;
      while i < |entries|
        invariant 0 <= i <= |entries|
        invariant forall j :: 0 <= j < i ==> Lookup(other.entries, entries[j].key) == Some(entries[j].value)
      {
        if !other.ContainsKey(entries[i].key) || other.Get(entries[i].key) != Some(entries[i].value) {
          return false;
        }
        i := i + 1;
      }
      return true;
    }
  }
}
