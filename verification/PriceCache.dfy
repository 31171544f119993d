/**
 The cache of matches: a map from key to element and a recency list, newest first.

 Keys are the model keys of a lookup joined by a NUL character.
 */
module PriceCache {
  import opened Options
  import opened Text
  import opened PriceMatching

  const CAPACITY: nat := 1024

  datatype Entry = Entry(key: Name, found: Option<Reference>)

  datatype Cache = Cache(entries: map<Name, Entry>, recency: seq<Entry>)

  const NO_ENTRIES := Cache(map[], [])

  /** Map and list hold the same entries, one per key, and at most as many as the cache may hold. */
  ghost predicate CacheOk(c: Cache) {
    && (forall k :: k in c.entries ==> c.entries[k].key == k && c.entries[k] in c.recency)
    && (forall i :: 0 <= i < |c.recency| ==>
         c.recency[i].key in c.entries && c.entries[c.recency[i].key] == c.recency[i])
    && (forall i, j :: 0 <= i < j < |c.recency| ==> c.recency[i].key != c.recency[j].key)
    && |c.recency| <= CAPACITY
  }

  function Without(list: seq<Entry>, key: Name): seq<Entry> {
    if list == [] then []
    else if list[0].key == key then list[1..]
    else [list[0]] + Without(list[1..], key)
  }

  predicate DistinctKeys(list: seq<Entry>) {
    forall i, j :: 0 <= i < j < |list| ==> list[i].key != list[j].key
  }

  lemma {:induction false} WithoutIs(list: seq<Entry>, key: Name)
    requires DistinctKeys(list)
    ensures DistinctKeys(Without(list, key))
    ensures forall e :: e in Without(list, key) <==> e in list && e.key != key
    ensures |Without(list, key)| == if exists e :: e in list && e.key == key then |list| - 1 else |list|
  {
    if list != [] {
      WithoutIs(list[1..], key);
      if list[0].key == key {
        forall e | e in list[1..] ensures e.key != key {
          var i :| 0 <= i < |list[1..]| && list[1..][i] == e;
          assert list[i + 1] == e;
        }
      } else {
        var rest := Without(list[1..], key);
        forall i, j | 0 <= i < j < |[list[0]] + rest| ensures ([list[0]] + rest)[i].key != ([list[0]] + rest)[j].key {
          if i == 0 { assert rest[j - 1] in list[1..]; }
        }
        if e :| e in list && e.key == key { assert e in list[1..]; }
      }
    }
  }

  /** A hit moves the element to the front. */
  function Touched(c: Cache, key: Name): Cache {
    if key !in c.entries then c else c.(recency := [c.entries[key]] + Without(c.recency, key))
  }

  function FrontList(c: Cache, e: Entry): seq<Entry> {
    [e] + if e.key in c.entries then Without(c.recency, e.key) else c.recency
  }

  /** The last element is dropped when there are too many. */
  function Trimmed(entries: map<Name, Entry>, list: seq<Entry>): Cache {
    if |list| <= CAPACITY then Cache(entries, list) else Cache(entries - {list[|list| - 1].key}, list[..|list| - 1])
  }

  /** A new element goes to the front, in place of one with its key. */
  function Inserted(c: Cache, e: Entry): Cache {
    Trimmed(c.entries[e.key := e], FrontList(c, e))
  }

  lemma TouchedOk(c: Cache, key: Name)
    requires CacheOk(c)
    ensures CacheOk(Touched(c, key)) && Touched(c, key).entries == c.entries
    ensures forall e :: e in Touched(c, key).recency <==> e in c.recency
  {
    if key in c.entries {
      WithoutIs(c.recency, key);
      var rest := Without(c.recency, key);
      var list := [c.entries[key]] + rest;
      forall i | 0 <= i < |list| ensures list[i].key in c.entries && c.entries[list[i].key] == list[i] {
        if i > 0 { assert rest[i - 1] in c.recency; }
      }
      forall i, j | 0 <= i < j < |list| ensures list[i].key != list[j].key {
        if i == 0 { assert rest[j - 1] in rest; }
      }
      forall e ensures e in list <==> e in c.recency {
        if e in c.recency && e.key == key { assert c.entries[key] == e; }
      }
    }
  }

  lemma FrontIs(c: Cache, e: Entry)
    requires CacheOk(c)
    ensures var list := FrontList(c, e);
            && DistinctKeys(list) && |list| <= CAPACITY + 1
            && (forall x :: x in list <==> x == e || (x in c.recency && x.key != e.key))
  {
    WithoutIs(c.recency, e.key);
    var rest := if e.key in c.entries then Without(c.recency, e.key) else c.recency;
    var list := [e] + rest;
    forall x | x in c.recency ensures x.key == e.key ==> e.key in c.entries { }
    forall i, j | 0 <= i < j < |list| ensures list[i].key != list[j].key {
      if i == 0 { assert rest[j - 1] in rest; }
    }
  }

  ghost predicate Matches(entries: map<Name, Entry>, list: seq<Entry>) {
    && DistinctKeys(list)
    && (forall x :: x in list ==> x.key in entries && entries[x.key] == x)
    && (forall k :: k in entries ==> entries[k].key == k && entries[k] in list)
  }

  lemma MatchesIsOk(entries: map<Name, Entry>, list: seq<Entry>)
    requires Matches(entries, list) && |list| <= CAPACITY
    ensures CacheOk(Cache(entries, list))
  {
    forall i | 0 <= i < |list| ensures list[i].key in entries && entries[list[i].key] == list[i] {
      assert list[i] in list;
    }
  }

  /** List and map of an insertion, before anything is dropped. */
  lemma FrontMatches(c: Cache, e: Entry)
    requires CacheOk(c)
    ensures Matches(c.entries[e.key := e], FrontList(c, e))
  {
    FrontIs(c, e);
  }

  lemma FrontSize(c: Cache, e: Entry)
    requires CacheOk(c) && |FrontList(c, e)| > CAPACITY
    ensures e.key !in c.entries && |c.recency| == CAPACITY
  {
    if e.key in c.entries { WithoutIsShorter(c, e.key); }
  }

  lemma WithoutIsShorter(c: Cache, key: Name)
    requires CacheOk(c) && key in c.entries
    ensures |Without(c.recency, key)| == |c.recency| - 1
  {
    WithoutIs(c.recency, key);
    assert c.entries[key] in c.recency;
  }

  /** Inserting keeps map and list in step and the size bounded. */
  lemma InsertedOk(c: Cache, e: Entry)
    requires CacheOk(c)
    ensures CacheOk(Inserted(c, e))
  {
    FrontIs(c, e);
    FrontMatches(c, e);
    TrimmedOk(c.entries[e.key := e], FrontList(c, e));
  }

  lemma TrimmedOk(entries: map<Name, Entry>, list: seq<Entry>)
    requires Matches(entries, list) && |list| <= CAPACITY + 1
    ensures CacheOk(Trimmed(entries, list))
  {
    if |list| > CAPACITY {
      DropLastOk(entries, list);
      MatchesIsOk(entries - {list[|list| - 1].key}, list[..|list| - 1]);
    } else {
      MatchesIsOk(entries, list);
    }
  }

  /** The new entry is found afterwards, the others are as before, and only the least recently used one may go. */
  lemma InsertedEntries(c: Cache, e: Entry)
    requires CacheOk(c)
    ensures var d := Inserted(c, e);
            && e.key in d.entries && d.entries[e.key] == e
            && (forall k :: k in d.entries && k != e.key ==> k in c.entries && d.entries[k] == c.entries[k])
            && (forall k :: k in c.entries && k != e.key && k !in d.entries ==>
                  |c.recency| == CAPACITY && e.key !in c.entries && k == c.recency[CAPACITY - 1].key)
  {
    var list := FrontList(c, e);
    FrontIs(c, e);
    if |list| > CAPACITY {
      FrontSize(c, e);
      assert list[0] == e && list[|list| - 1] == c.recency[CAPACITY - 1];
    }
  }

  lemma DropLastOk(entries: map<Name, Entry>, list: seq<Entry>)
    requires list != [] && Matches(entries, list)
    ensures Matches(entries - {list[|list| - 1].key}, list[..|list| - 1])
  {
    var n := |list| - 1;
    var rest, left := list[..n], entries - {list[n].key};
    forall x | x in rest ensures x.key in left && left[x.key] == x {
      var i :| 0 <= i < n && rest[i] == x;
      assert list[i] in list;
    }
    forall k | k in left ensures left[k] in rest {
      var i :| 0 <= i < |list| && list[i] == left[k];
      assert i != n;
      assert rest[i] == left[k];
    }
  }

  // ---------------------------------------------------------------------------------------
  // Joined keys
  // ---------------------------------------------------------------------------------------

  const NUL: char := '\0'

  /** Go's strings.Join of at most two keys with a NUL between them. */
  function Join(keys: seq<Name>): Name
    requires |keys| <= 2
  {
    if keys == [] then NO_NAME
    else if |keys| == 1 then keys[0]
    else Name(keys[0].text + [NUL] + keys[1].text)
  }

  /** The lists a lookup can ask for. */
  predicate KeyList(keys: seq<Name>) {
    && |keys| <= 2 && NO_NAME !in keys && (|keys| == 2 ==> keys[0] != keys[1])
    && forall i :: 0 <= i < |keys| ==> ModelKey(keys[i]) == keys[i]
  }

  lemma PriceKeysAreKeyList(upstream: Name, requested: Name, strip: Name -> Name)
    ensures KeyList(PriceKeys(upstream, requested, strip))
  {
    var keys := PriceKeys(upstream, requested, strip);
    KeyOfKey(strip(upstream).text);
    KeyOfKey(strip(requested).text);
    forall i | 0 <= i < |keys| ensures ModelKey(keys[i]) == keys[i] { assert keys[i] in keys; }
  }

  /** Keys of model names without NUL characters have none either. */
  lemma PriceKeysAreNulFree(upstream: Name, requested: Name, strip: Name -> Name)
    requires NUL !in strip(upstream).text && NUL !in strip(requested).text
    ensures NulFree(PriceKeys(upstream, requested, strip))
  {
    var keys := PriceKeys(upstream, requested, strip);
    KeyIsLastSegment(strip(upstream).text);
    KeyIsLastSegment(strip(requested).text);
    forall i | 0 <= i < |keys| ensures NUL !in keys[i].text { assert keys[i] in keys; }
  }

  lemma {:induction false} KeyOfKey(s: string)
    ensures AfterSlash(AfterSlash(s)) == AfterSlash(s)
  {
    KeyIsLastSegment(s);
  }

  predicate NulFree(keys: seq<Name>) {
    forall i :: 0 <= i < |keys| ==> NUL !in keys[i].text
  }

  function FirstNul(s: string): nat {
    if s == [] || s[0] == NUL then 0 else FirstNul(s[1..]) + 1
  }

  lemma {:induction false} FirstNulIs(a: string, b: string)
    requires NUL !in a
    ensures FirstNul(a + [NUL] + b) == |a|
  {
    if a == [] {
      assert (a + [NUL] + b)[0] == NUL;
    } else {
      assert (a + [NUL] + b)[1..] == a[1..] + [NUL] + b;
      FirstNulIs(a[1..], b);
    }
  }

  lemma SplitAtNul(a: string, b: string, c: string, d: string)
    requires a + [NUL] + b == c + [NUL] + d && NUL !in a && NUL !in c
    ensures a == c && b == d
  {
    var s := a + [NUL] + b;
    FirstNulIs(a, b);
    FirstNulIs(c, d);
    assert a == s[..|a|] && c == s[..|c|];
    assert b == s[|a| + 1..] && d == s[|c| + 1..];
  }

  lemma JoinHasNul(ks: seq<Name>)
    requires |ks| <= 2 && NulFree(ks)
    ensures NUL in Join(ks).text <==> |ks| == 2
  {
    if |ks| == 2 { assert Join(ks).text[|ks[0].text|] == NUL; }
  }

  /** Lists of keys without NUL characters never share a cache entry. */
  lemma NulFreeJoinsDiffer(ks: seq<Name>, ls: seq<Name>)
    requires KeyList(ks) && KeyList(ls) && NulFree(ks) && NulFree(ls) && Join(ks) == Join(ls)
    ensures ks == ls
  {
    JoinHasNul(ks);
    JoinHasNul(ls);
    if |ks| == 2 && |ls| == 2 {
      SplitAtNul(ks[0].text, ks[1].text, ls[0].text, ls[1].text);
      assert ks[0] == ls[0] && ks[1] == ls[1];
    }
  }

  lemma SameFirstSameList(ks: seq<Name>, ls: seq<Name>)
    requires KeyList(ks) && KeyList(ls) && Join(ks) == Join(ls)
    requires ks != [] && ls != [] && ks[0] == ls[0]
    ensures ks == ls
  {
    var p := ks[0].text + [NUL];
    var second := Join(ks).text;
    assert |ks| == 2 ==> second == p + ks[1].text;
    assert |ls| == 2 ==> second == p + ls[1].text;
    assert |ks| == 2 ==> second[|p|..] == ks[1].text;
    assert |ls| == 2 ==> second[|p|..] == ls[1].text;
  }

  /** Two lists that share an entry differ in their first key. */
  lemma SharedEntriesDifferFirst(ks: seq<Name>, ls: seq<Name>)
    requires KeyList(ks) && KeyList(ls) && Join(ks) == Join(ls) && ks != ls
    ensures ks != [] && ls != [] && ks[0] != ls[0]
  {
    EmptyJoin(ks);
    EmptyJoin(ls);
    if ks != [] && ls != [] && ks[0] == ls[0] { SameFirstSameList(ks, ls); }
  }

  lemma EmptyJoin(ks: seq<Name>)
    requires KeyList(ks)
    ensures Join(ks) == NO_NAME <==> ks == []
  {
    if |ks| == 2 { assert Join(ks).text[|ks[0].text|] == NUL; }
  }
}
