/** State keys and their scopes (session/state.go), and the byte order sort.Strings uses. */
module StateKeys {

  import opened Common

  const KEY_PREFIX_APP := "app:"
  const KEY_PREFIX_USER := "user:"
  const KEY_PREFIX_TEMP := "temp:"

  const SCOPE_APP := "app"
  const SCOPE_USER := "user"
  const SCOPE_SESSION := "session"

  /** A key as the scope and key columns hold it. */
  datatype Stored = Stored(scope: string, key: string)

  /** None is a key that is not persisted. */
  function ScopeOf(key: string): Option<Stored> {
    if KEY_PREFIX_TEMP <= key then None
    else if KEY_PREFIX_APP <= key then Some(Stored(SCOPE_APP, key[|KEY_PREFIX_APP|..]))
    else if KEY_PREFIX_USER <= key then Some(Stored(SCOPE_USER, key[|KEY_PREFIX_USER|..]))
    else Some(Stored(SCOPE_SESSION, key))
  }

  function Key(scope: string, stored: string): string {
    if scope == SCOPE_APP then KEY_PREFIX_APP + stored
    else if scope == SCOPE_USER then KEY_PREFIX_USER + stored
    else stored
  }

  predicate Persisted(key: string) {
    ScopeOf(key).Some?
  }

  /** The prefix decides the scope and is dropped; temporary keys are not persisted; any other key is the session's own. */
  lemma ScopesByPrefix(rest: string, key: string)
    ensures ScopeOf("app:" + rest) == Some(Stored("app", rest))
    ensures ScopeOf("user:" + rest) == Some(Stored("user", rest))
    ensures ScopeOf("temp:" + rest) == None
    ensures !("app:" <= key) && !("user:" <= key) && !("temp:" <= key) ==> ScopeOf(key) == Some(Stored("session", key))
    ensures Key("app", rest) == "app:" + rest && Key("user", rest) == "user:" + rest && Key("session", rest) == rest
  {
    assert ("app:" + rest)[0] == 'a' && ("user:" + rest)[0] == 'u' && "temp:"[0] == 't' && "app:"[0] == 'a';
    assert ("app:" + rest)[4..] == rest && ("user:" + rest)[5..] == rest;
    assert "app"[0] == 'a' && "user"[0] == 'u' && "session"[0] == 's';
  }

  /** Who shares a key, and whether it is persisted, said of its prefix. */
  lemma PrefixDecides(key: string)
    ensures Persisted(key) <==> !("temp:" <= key)
    ensures Persisted(key) ==> (ScopeOf(key).value.scope == "app" <==> "app:" <= key)
    ensures Persisted(key) ==> (ScopeOf(key).value.scope == "user" <==> "user:" <= key)
    ensures Persisted(key) ==> (ScopeOf(key).value.scope == "session" <==> !("app:" <= key) && !("user:" <= key))
  {
    assert SCOPE_APP[0] == 'a' && SCOPE_USER[0] == 'u' && SCOPE_SESSION[0] == 's';
    assert "app:"[0] == 'a' && "user:"[0] == 'u' && "temp:"[0] == 't';
  }

  /** What was stored comes back as the key it was stored under. */
  lemma KeyRestores(key: string)
    requires Persisted(key)
    ensures Key(ScopeOf(key).value.scope, ScopeOf(key).value.key) == key
  {
    if KEY_PREFIX_APP <= key {
      assert key == key[..|KEY_PREFIX_APP|] + key[|KEY_PREFIX_APP|..];
    } else if KEY_PREFIX_USER <= key {
      assert key == key[..|KEY_PREFIX_USER|] + key[|KEY_PREFIX_USER|..];
    }
  }

  /** The other direction holds for every app and user row, for a session row exactly when its key
      carries none of the three prefixes, and for no other scope. */
  lemma ScopeRestoresExactly(scope: string, stored: string)
    ensures ScopeOf(Key(scope, stored)) == Some(Stored(scope, stored)) <==>
            || scope == SCOPE_APP
            || scope == SCOPE_USER
            || (scope == SCOPE_SESSION && !(KEY_PREFIX_TEMP <= stored) && !(KEY_PREFIX_APP <= stored) && !(KEY_PREFIX_USER <= stored))
  {
    assert SCOPE_APP[0] == 'a' && SCOPE_USER[0] == 'u' && SCOPE_SESSION[0] == 's';
    var key := Key(scope, stored);
    if scope == SCOPE_APP {
      assert key[0] == 'a' && KEY_PREFIX_TEMP[0] == 't';
      assert key[|KEY_PREFIX_APP|..] == stored;
    } else if scope == SCOPE_USER {
      assert key[0] == 'u' && KEY_PREFIX_TEMP[0] == 't' && KEY_PREFIX_APP[0] == 'a';
      assert key[|KEY_PREFIX_USER|..] == stored;
    }
  }

  /** Two persisted keys with the same columns are the same key. */
  lemma ColumnsDistinguish(a: string, b: string)
    requires Persisted(a) && ScopeOf(a) == ScopeOf(b)
    ensures a == b
  {
    KeyRestores(a);
    KeyRestores(b);
  }

  // ---- Sorted keys ----

  predicate Less(a: string, b: string) {
    if b == [] then false
    else if a == [] then true
    else a[0] < b[0] || (a[0] == b[0] && Less(a[1..], b[1..]))
  }

  /** The order of the first character that differs; a first part comes before the whole. */
  lemma {:induction false} LessExactly(a: string, b: string)
    ensures Less(a, b) <==> exists i :: 0 <= i <= |a| && i < |b| && a[..i] == b[..i] && (i < |a| ==> a[i] < b[i])
  {
    if a != [] && b != [] {
      LessExactly(a[1..], b[1..]);
      if Less(a, b) && a[0] == b[0] {
        var i :| 0 <= i <= |a| - 1 && i < |b| - 1 && a[1..][..i] == b[1..][..i] && (i < |a| - 1 ==> a[1..][i] < b[1..][i]);
        assert a[..i + 1] == [a[0]] + a[1..][..i] && b[..i + 1] == [b[0]] + b[1..][..i];
      } else if Less(a, b) {
        assert a[..0] == b[..0];
      }
      if i :| 0 <= i <= |a| && i < |b| && a[..i] == b[..i] && (i < |a| ==> a[i] < b[i]) {
        if i > 0 {
          assert a[0] == a[..i][0] == b[..i][0] == b[0];
          assert a[1..][..i - 1] == a[..i][1..] && b[1..][..i - 1] == b[..i][1..];
        }
      }
    } else if b != [] {
      assert a[..0] == b[..0];
    }
  }

  lemma {:induction false} LessTotal(a: string, b: string)
    ensures Less(a, b) || a == b || Less(b, a)
    ensures !(Less(a, b) && Less(b, a)) && !Less(a, a)
  {
    if a != [] && b != [] {
      LessTotal(a[1..], b[1..]);
      LessTotal(a[1..], a[1..]);
      assert a == [a[0]] + a[1..] && b == [b[0]] + b[1..];
    } else if a != [] {
      LessTotal(a[1..], a[1..]);
    }
  }

  lemma {:induction false} LessTransitive(a: string, b: string, c: string)
    requires Less(a, b) && Less(b, c)
    ensures Less(a, c)
  {
    if a != [] && a[0] == b[0] == c[0] {
      LessTransitive(a[1..], b[1..], c[1..]);
    }
  }

  ghost predicate Ascending(keys: seq<string>) {
    forall i, j :: 0 <= i < j < |keys| ==> Less(keys[i], keys[j])
  }

  /** Every key of s once, in ascending order. */
  ghost predicate Lists(keys: seq<string>, s: set<string>) {
    Ascending(keys) && forall k :: k in keys <==> k in s
  }

  /** The sorted list of a set of keys is unique: it does not depend on the order the map yielded them. */
  lemma {:induction false} SortedListUnique(a: seq<string>, b: seq<string>, s: set<string>)
    requires Lists(a, s) && Lists(b, s)
    ensures a == b
    decreases |a|
  {
    FirstIsIn(a);
    FirstIsIn(b);
    if a != [] {
      HeadIsLeast(a, b[0]);
      HeadIsLeast(b, a[0]);
      LessTotal(a[0], b[0]);
      assert a[0] == b[0];
      TailLists(a, s);
      TailLists(b, s);
      SortedListUnique(a[1..], b[1..], s - {a[0]});
      assert a == [a[0]] + a[1..] && b == [b[0]] + b[1..];
    }
  }

  lemma FirstIsIn(keys: seq<string>)
    ensures keys == [] || keys[0] in keys
  {
  }

  lemma HeadIsLeast(keys: seq<string>, k: string)
    requires Ascending(keys) && keys != [] && k in keys
    ensures k == keys[0] || Less(keys[0], k)
  {
    var i :| 0 <= i < |keys| && keys[i] == k;
  }

  lemma TailLists(keys: seq<string>, s: set<string>)
    requires Lists(keys, s) && keys != []
    ensures Lists(keys[1..], s - {keys[0]})
  {
    assert keys == [keys[0]] + keys[1..];
    forall i | 0 <= i < |keys| - 1 ensures keys[1..][i] != keys[0] {
      LessTotal(keys[0], keys[i + 1]);
    }
  }

  /** Put one more key where it belongs. */
  method Insert(keys: seq<string>, k: string) returns (r: seq<string>)
    requires Ascending(keys) && k !in keys
    ensures Ascending(r) && forall x :: x in r <==> x in keys || x == k
  {
    hide Less;
    var i := 0;
    while i < |keys| && Less(keys[i], k)
      invariant 0 <= i <= |keys|
      invariant forall j :: 0 <= j < i ==> Less(keys[j], k)
    {
      i := i + 1;
    }
    InsertedAscends(keys, k, i);
    r := keys[..i] + [k] + keys[i..];
    assert keys == keys[..i] + keys[i..];
  }

  lemma InsertedAscends(keys: seq<string>, k: string, i: nat)
    requires Ascending(keys) && k !in keys && i <= |keys|
    requires forall j :: 0 <= j < i ==> Less(keys[j], k)
    requires i < |keys| ==> !Less(keys[i], k)
    ensures Ascending(keys[..i] + [k] + keys[i..])
  {
    hide Less;
    var r := keys[..i] + [k] + keys[i..];
    forall x, y | 0 <= x < y < |r| ensures Less(r[x], r[y]) {
      if i < y {
        assert r[y] == keys[y - 1];
        LessTotal(keys[i], k);
        if i < y - 1 {
          LessTransitive(k, keys[i], keys[y - 1]);
        }
      }
    }
  }

  /** Collect the keys in whatever order the map yields them, sorted. */
  method SortedKeys(s: set<string>) returns (keys: seq<string>)
    ensures Lists(keys, s)
  {
    keys := [];
    var pending := s;
    while pending != {}
      invariant pending <= s && Lists(keys, s - pending)
      decreases pending
    {
      var k :| k in pending;
      keys := Insert(keys, k);
      pending := pending - {k};
    }
  }
}
