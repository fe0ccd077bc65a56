/**
 * The tags of one OSM `way`: an ordered list of key/value pairs, the upsert
 * that the translator uses to write tags, and the "already processed" test.
 */
module Tags {
  import opened Wrappers

  /** One `tag` child of a way, with its `k` and `v` attributes. */
  datatype Tag = Tag(key: string, value: string)

  /** The `tag` children of a way, in document order. */
  type Way = seq<Tag>

  /** The keys this tool reads and writes. */
  const Name: string := "name"
  const NameRu: string := "name:ru"
  const NameKy: string := "name:ky"

  /** Some tag of the way carries this key, scanning the tags in order. */
  predicate HasKey(w: Way, key: string)
  {
    |w| > 0 && (w[0].key == key || HasKey(w[1..], key))
  }

  /** The scan finds the key exactly when some position of the way holds it. */
  lemma {:induction false} HasKeyMeaning(w: Way, key: string)
    ensures HasKey(w, key) <==> exists i :: 0 <= i < |w| && w[i].key == key
    decreases |w|
  {
    if |w| > 0 {
      HasKeyMeaning(w[1..], key);
      if HasKey(w[1..], key) {
        var i :| 0 <= i < |w[1..]| && w[1..][i].key == key;
        assert w[i + 1].key == key;
      }
      if w[0].key != key && exists i :: 0 <= i < |w| && w[i].key == key {
        var i :| 0 <= i < |w| && w[i].key == key;
        assert w[1..][i - 1].key == key;
      }
    }
  }

  /** Position `i` holds the first tag of the way with this key. */
  predicate IsFirstWithKey(w: Way, key: string, i: int)
  {
    && 0 <= i < |w|
    && w[i].key == key
    && forall j :: 0 <= j < i ==> w[j].key != key
  }

  /**
   * The value of the first tag with this key, which is what a lookup of a
   * child element by its `k` attribute finds; None when no tag has the key.
   */
  function Lookup(w: Way, key: string): (r: Option<string>)
    ensures r.None? <==> !HasKey(w, key)
  {
    if |w| == 0 then None
    else if w[0].key == key then Some(w[0].value)
    else Lookup(w[1..], key)
  }

  /** A found value is the value of the first tag that carries the key. */
  lemma {:induction false} LookupFindsFirst(w: Way, key: string)
    ensures Lookup(w, key).Some? ==>
      exists i :: IsFirstWithKey(w, key, i) && w[i].value == Lookup(w, key).value
    decreases |w|
  {
    if |w| > 0 {
      if w[0].key == key {
        assert IsFirstWithKey(w, key, 0);
      } else {
        LookupFindsFirst(w[1..], key);
        if Lookup(w[1..], key).Some? {
          var i :| IsFirstWithKey(w[1..], key, i) && w[1..][i].value == Lookup(w[1..], key).value;
          assert IsFirstWithKey(w, key, i + 1);
        }
      }
    }
  }

  /** A tag in front of a way adds exactly its own key to the way's keys. */
  lemma HasKeyCons(t: Tag, a: Way, k: string)
    ensures HasKey([t] + a, k) <==> k == t.key || HasKey(a, k)
  {
    assert ([t] + a)[1..] == a;
  }

  /**
   * Sets the value of the first tag with this key, or appends a new tag at
   * the end of the way when no tag has the key.
   */
  function SetOrUpdateTag(w: Way, key: string, value: string): Way
  {
    if |w| == 0 then [Tag(key, value)]
    else if w[0].key == key then [Tag(key, value)] + w[1..]
    else [w[0]] + SetOrUpdateTag(w[1..], key, value)
  }

  /**
   * The upsert rewrites the value of exactly the first tag with the key and
   * keeps the length and every other tag; without such a tag it appends one
   * new `(key, value)` tag at the end (add_kyrgyz_names.py:55-63).
   */
  lemma {:induction false} SetOrUpdateTagShape(w: Way, key: string, value: string)
    ensures HasKey(w, key) ==>
      exists i :: IsFirstWithKey(w, key, i) && SetOrUpdateTag(w, key, value) == w[i := Tag(key, value)]
    ensures !HasKey(w, key) ==> SetOrUpdateTag(w, key, value) == w + [Tag(key, value)]
    decreases |w|
  {
    if |w| == 0 {
    } else if w[0].key == key {
      assert IsFirstWithKey(w, key, 0);
      assert SetOrUpdateTag(w, key, value) == w[0 := Tag(key, value)];
    } else {
      var rest := SetOrUpdateTag(w[1..], key, value);
      SetOrUpdateTagShape(w[1..], key, value);
      assert w == [w[0]] + w[1..];
      if HasKey(w[1..], key) {
        var i :| IsFirstWithKey(w[1..], key, i) && rest == w[1..][i := Tag(key, value)];
        assert IsFirstWithKey(w, key, i + 1);
        assert [w[0]] + rest == w[i + 1 := Tag(key, value)];
      } else {
        assert [w[0]] + rest == w + [Tag(key, value)];
      }
    }
  }

  /**
   * After the upsert the key reads back the new value, every other key reads
   * back what it read before, and the way carries exactly the keys it carried
   * plus this one.
   */
  lemma {:induction false} SetOrUpdateTagLookup(w: Way, key: string, value: string, k: string)
    ensures Lookup(SetOrUpdateTag(w, key, value), key) == Some(value)
    ensures k != key ==> Lookup(SetOrUpdateTag(w, key, value), k) == Lookup(w, k)
    ensures HasKey(SetOrUpdateTag(w, key, value), k) <==> HasKey(w, k) || k == key
    decreases |w|
  {
    var r := SetOrUpdateTag(w, key, value);
    if |w| == 0 {
      HasKeyCons(Tag(key, value), [], k);
    } else if w[0].key == key {
      assert r == [Tag(key, value)] + w[1..];
      assert w == [w[0]] + w[1..];
      HasKeyCons(Tag(key, value), w[1..], k);
      HasKeyCons(w[0], w[1..], k);
    } else {
      var rest := SetOrUpdateTag(w[1..], key, value);
      assert r == [w[0]] + rest;
      assert w == [w[0]] + w[1..];
      SetOrUpdateTagLookup(w[1..], key, value, k);
      HasKeyCons(w[0], rest, k);
      HasKeyCons(w[0], w[1..], k);
      assert r[1..] == rest;
    }
  }

  /** Writing the value a key already reads back leaves the way unchanged. */
  lemma {:induction false} SetOrUpdateTagSameValue(w: Way, key: string, value: string)
    requires Lookup(w, key) == Some(value)
    ensures SetOrUpdateTag(w, key, value) == w
    decreases |w|
  {
    if w[0].key != key {
      assert w == [w[0]] + w[1..];
      SetOrUpdateTagSameValue(w[1..], key, value);
    }
  }

  /** No two tags of the way carry the same key. */
  predicate UniqueKeys(w: Way)
  {
    forall a, b :: 0 <= a < b < |w| ==> w[a].key != w[b].key
  }

  /**
   * The upsert never gives a key a second tag: on a way with one tag per key,
   * it either rewrites the tag that has the key or appends the first one.
   */
  lemma SetOrUpdateTagKeepsUnique(w: Way, key: string, value: string)
    requires UniqueKeys(w)
    ensures UniqueKeys(SetOrUpdateTag(w, key, value))
  {
    SetOrUpdateTagShape(w, key, value);
    HasKeyMeaning(w, key);
    if HasKey(w, key) {
      var i :| IsFirstWithKey(w, key, i) && SetOrUpdateTag(w, key, value) == w[i := Tag(key, value)];
    }
  }

  /**
   * A way counts as already processed when it carries both a `name:ru` and a
   * `name:ky` tag, whatever their values (add_kyrgyz_names.py:116-120).
   */
  predicate IsAlreadyProcessed(w: Way)
  {
    HasKey(w, NameRu) && HasKey(w, NameKy)
  }

  /**
   * The three upserts of an accepted translation, in the source's order:
   * `name:ky` gets the translation, `name:ru` the original name, and `name`
   * the translation.
   */
  function ApplyTranslation(w: Way, translated: string, original: string): Way
  {
    var w1 := SetOrUpdateTag(w, NameKy, translated);
    var w2 := SetOrUpdateTag(w1, NameRu, original);
    SetOrUpdateTag(w2, Name, translated)
  }

  /**
   * An applied translation reads back as `name` = `name:ky` = the translation
   * and `name:ru` = the original, makes the way already processed, leaves
   * every other key as it was and adds no key besides these three.
   */
  lemma ApplyTranslationEffect(w: Way, translated: string, original: string, k: string)
    ensures Lookup(ApplyTranslation(w, translated, original), NameKy) == Some(translated)
    ensures Lookup(ApplyTranslation(w, translated, original), NameRu) == Some(original)
    ensures Lookup(ApplyTranslation(w, translated, original), Name) == Some(translated)
    ensures IsAlreadyProcessed(ApplyTranslation(w, translated, original))
    ensures k != Name && k != NameRu && k != NameKy ==>
      Lookup(ApplyTranslation(w, translated, original), k) == Lookup(w, k)
    ensures HasKey(ApplyTranslation(w, translated, original), k) <==>
      HasKey(w, k) || k == Name || k == NameRu || k == NameKy
  {
    var w1 := SetOrUpdateTag(w, NameKy, translated);
    var w2 := SetOrUpdateTag(w1, NameRu, original);
    SetOrUpdateTagLookup(w, NameKy, translated, k);
    SetOrUpdateTagLookup(w1, NameRu, original, k);
    SetOrUpdateTagLookup(w2, Name, translated, k);
    SetOrUpdateTagLookup(w1, NameRu, original, NameKy);
    SetOrUpdateTagLookup(w2, Name, translated, NameKy);
    SetOrUpdateTagLookup(w2, Name, translated, NameRu);
  }

  /** A second application of the same translation changes nothing. */
  lemma ApplyTranslationIdempotent(w: Way, translated: string, original: string)
    ensures ApplyTranslation(ApplyTranslation(w, translated, original), translated, original)
         == ApplyTranslation(w, translated, original)
  {
    var a := ApplyTranslation(w, translated, original);
    ApplyTranslationEffect(w, translated, original, Name);
    SetOrUpdateTagSameValue(a, NameKy, translated);
    SetOrUpdateTagSameValue(a, NameRu, original);
    SetOrUpdateTagSameValue(a, Name, translated);
  }

  /** An applied translation keeps one tag per key. */
  lemma ApplyTranslationKeepsUnique(w: Way, translated: string, original: string)
    requires UniqueKeys(w)
    ensures UniqueKeys(ApplyTranslation(w, translated, original))
  {
    var w1 := SetOrUpdateTag(w, NameKy, translated);
    var w2 := SetOrUpdateTag(w1, NameRu, original);
    SetOrUpdateTagKeepsUnique(w, NameKy, translated);
    SetOrUpdateTagKeepsUnique(w1, NameRu, original);
    SetOrUpdateTagKeepsUnique(w2, Name, translated);
  }
}
