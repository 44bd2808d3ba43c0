// The text form of a key-value snapshot (lib/apps/kv_store.cc:167-186, 235-237): "key:value," for
// every entry, in the iteration order of an unordered map.

module KVSnapshots {

  function FindFrom(s: string, c: char, i: nat): (k: nat)
    requires i <= |s|
    ensures i <= k <= |s|
    ensures forall j :: i <= j < k ==> s[j] != c
    ensures k < |s| ==> s[k] == c
    decreases |s| - i
  {
    if i == |s| || s[i] == c then i else FindFrom(s, c, i + 1)
  }

  // std::getline with a delimiter: the text before it, and what follows it.
  function Token(s: string, c: char): string {
    s[..FindFrom(s, c, 0)]
  }

  function AfterToken(s: string, c: char): (rest: string)
    ensures s != "" ==> |rest| < |s|
    ensures s == "" ==> rest == ""
  {
    var k := FindFrom(s, c, 0);
    if k < |s| then s[k + 1..] else ""
  }

  function KeyOf(kv: string): string {
    Token(kv, ':')
  }

  function ValueOf(kv: string): string {
    Token(AfterToken(kv, ':'), ':')
  }

  function ParseFrom(m: map<string, string>, s: string): map<string, string>
    decreases |s|
  {
    if s == "" then m
    else
      var kv := Token(s, ',');
      ParseFrom(m[KeyOf(kv) := ValueOf(kv)], AfterToken(s, ','))
  }

  // The loop of applySnapshot.
  method Parse(snapshot: string) returns (newData: map<string, string>)
    ensures newData == ParseFrom(map[], snapshot)
  {
    newData := map[];
    var iss := snapshot;
    while iss != ""
      invariant ParseFrom(newData, iss) == ParseFrom(map[], snapshot)
      decreases |iss|
    {
      var kv := Token(iss, ',');
      iss := AfterToken(iss, ',');
      newData := newData[KeyOf(kv) := ValueOf(kv)];
    }
  }

  // The printed form, for the keys in the order given.
  function Print(m: map<string, string>, order: seq<string>): string
    requires forall k :: k in order ==> k in m
  {
    if order == [] then "" else order[0] + ":" + m[order[0]] + "," + Print(m, order[1..])
  }

  predicate Clean(s: string) {
    ':' !in s && ',' !in s
  }

  ghost predicate CleanMap(m: map<string, string>) {
    forall k :: k in m ==> Clean(k) && Clean(m[k])
  }

  // An order in which an unordered map may be iterated.
  ghost predicate IsOrder(m: map<string, string>, order: seq<string>) {
    && (forall k :: k in order <==> k in m)
    && forall i, j :: 0 <= i < j < |order| ==> order[i] != order[j]
  }

  lemma TokenOfPrefix(a: string, c: char, b: string)
    requires c !in a
    ensures Token(a + [c] + b, c) == a && AfterToken(a + [c] + b, c) == b
  {
    var s := a + [c] + b;
    var k := FindFrom(s, c, 0);
    assert s[|a|] == c;
    assert forall j :: 0 <= j < |a| ==> s[j] == a[j] && a[j] in a;
  }

  lemma TokenOfAll(a: string, c: char)
    requires c !in a
    ensures Token(a, c) == a && AfterToken(a, c) == ""
  {
    assert forall j :: 0 <= j < |a| ==> a[j] in a;
  }

  // Parsing one printed entry gives the entry.
  lemma EntryParsed(key: string, value: string, rest: string)
    requires Clean(key) && Clean(value)
    ensures var s := key + ":" + value + "," + rest;
            && Token(s, ',') == key + ":" + value && AfterToken(s, ',') == rest
            && KeyOf(key + ":" + value) == key && ValueOf(key + ":" + value) == value
  {
    var kv := key + ":" + value;
    assert ',' !in kv;
    TokenOfPrefix(kv, ',', rest);
    TokenOfPrefix(key, ':', value);
    assert key + ":" + value == key + [':'] + value;
    TokenOfAll(value, ':');
  }

  // The entries of m for these keys, written over acc.
  function Overlay(acc: map<string, string>, m: map<string, string>, order: seq<string>): map<string, string>
    requires forall k :: k in order ==> k in m
    decreases |order|
  {
    if order == [] then acc else Overlay(acc[order[0] := m[order[0]]], m, order[1..])
  }

  lemma {:induction false} PrintedParsed(acc: map<string, string>, m: map<string, string>, order: seq<string>)
    requires CleanMap(m) && forall k :: k in order ==> k in m
    ensures ParseFrom(acc, Print(m, order)) == Overlay(acc, m, order)
    decreases |order|
  {
    if order != [] {
      var key := order[0];
      var rest := Print(m, order[1..]);
      EntryParsed(key, m[key], rest);
      assert Print(m, order) == key + ":" + m[key] + "," + rest;
      PrintedParsed(acc[key := m[key]], m, order[1..]);
    }
  }

  lemma {:induction false} OverlayMeaning(acc: map<string, string>, m: map<string, string>, order: seq<string>)
    requires forall k :: k in order ==> k in m
    ensures forall k :: k in Overlay(acc, m, order) <==> k in acc || k in order
    ensures forall k :: k in Overlay(acc, m, order) ==>
              Overlay(acc, m, order)[k] == if k in order then m[k] else acc[k]
    decreases |order|
  {
    if order != [] {
      OverlayMeaning(acc[order[0] := m[order[0]]], m, order[1..]);
      assert order == [order[0]] + order[1..];
    }
  }

  // Whatever is parsed has no delimiters in it.
  lemma {:induction false} ParsedIsClean(m: map<string, string>, s: string)
    requires CleanMap(m)
    ensures CleanMap(ParseFrom(m, s))
    decreases |s|
  {
    if s != "" {
      var kv := Token(s, ',');
      TokenIsClean(s, ',');
      TokenIsClean(kv, ':');
      TokenIsClean(AfterToken(kv, ':'), ':');
      ParsedIsClean(m[KeyOf(kv) := ValueOf(kv)], AfterToken(s, ','));
    }
  }

  lemma TokenIsClean(s: string, c: char)
    ensures c !in Token(s, c)
    ensures forall d :: d in Token(s, c) || d in AfterToken(s, c) ==> d in s
  {
  }

  // Printing and parsing gives the same map back, for every iteration order, exactly when no key
  // or value contains one of the delimiters.
  lemma SnapshotRoundTripIff(m: map<string, string>, order: seq<string>)
    requires IsOrder(m, order)
    ensures ParseFrom(map[], Print(m, order)) == m <==> CleanMap(m)
  {
    if CleanMap(m) {
      PrintedParsed(map[], m, order);
      OverlayMeaning(map[], m, order);
      assert Overlay(map[], m, order) == m;
    }
    ParsedIsClean(map[], Print(m, order));
  }
}
