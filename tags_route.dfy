/**
 * The tags API route: tag names are trimmed and single-spaced, the lookup key is the lowercase
 * of that, and a POST upserts one tag on its key.
 */
module TagsRoute {
  import opened Wrappers
  import opened Text
  import opened Store

  const DefaultColor := "#00a884"

  /** `normalizeTagName`: trimmed, every whitespace run one space. */
  function NormalizeTagName(name: string): (r: string)
    ensures Trimmed(r) && SingleSpaced(r)
  {
    TrimIsTrimmed(name);
    CollapseKeepsTrimmed(Trim(name));
    CollapseSingleSpaced(Trim(name));
    Collapse(Trim(name))
  }

  predicate NoUpper(s: string) {
    forall i :: 0 <= i < |s| ==> !('A' <= s[i] <= 'Z')
  }

  /** `normalizeTagKey`: the lowercase of the normalised name. */
  function NormalizeTagKey(name: string): (r: string)
    ensures Trimmed(r) && SingleSpaced(r) && NoUpper(r)
  {
    KeyIsNormalised(name);
    ToLower(NormalizeTagName(name))
  }

  lemma KeyIsNormalised(name: string)
    ensures var r := ToLower(Collapse(Trim(name)));
      Trimmed(r) && SingleSpaced(r) && NoUpper(r)
  {
    var n := Trim(ToLower(name));
    ToLowerCollapse(Trim(name));
    ToLowerTrim(name);
    assert ToLower(Collapse(Trim(name))) == Collapse(n);
    TrimIsTrimmed(ToLower(name));
    CollapseKeepsTrimmed(n);
    CollapseSingleSpaced(n);
    LowerHasNoUpper(Collapse(Trim(name)));
  }

  lemma LowerHasNoUpper(s: string)
    ensures NoUpper(ToLower(s))
  {
  }

  /** Normalising a normalised name changes nothing. */
  lemma NameIdempotent(name: string)
    ensures NormalizeTagName(NormalizeTagName(name)) == NormalizeTagName(name)
  {
    var n := NormalizeTagName(name);
    TrimOfTrimmed(n);
    CollapseOfSingleSpaced(n);
  }

  /** A key is its own key. */
  lemma KeyIdempotent(name: string)
    ensures NormalizeTagKey(NormalizeTagKey(name)) == NormalizeTagKey(name)
  {
    var k := NormalizeTagKey(name);
    TrimOfTrimmed(k);
    CollapseOfSingleSpaced(k);
    ToLowerIdempotent(NormalizeTagName(name));
  }

  /** Names that agree when lowercased (they differ only in case) get the same key. */
  lemma KeyIgnoresCase(a: string, b: string)
    requires ToLower(a) == ToLower(b)
    ensures NormalizeTagKey(a) == NormalizeTagKey(b)
  {
    ToLowerCollapse(Trim(a));
    ToLowerTrim(a);
    ToLowerCollapse(Trim(b));
    ToLowerTrim(b);
  }

  /** Names with the same normalised form (they differ only in spacing) get the same key, and a name has the key of its normalised form. */
  lemma KeyIgnoresSpacing(a: string, b: string)
    ensures NormalizeTagKey(NormalizeTagName(a)) == NormalizeTagKey(a)
    ensures NormalizeTagName(a) == NormalizeTagName(b) ==> NormalizeTagKey(a) == NormalizeTagKey(b)
  {
    NameIdempotent(a);
  }

  /**
   * Normalising drops whitespace only: the non-whitespace characters survive in order, and two
   * trimmed parts separated by any whitespace run come out joined by exactly one space.
   */
  lemma NameKeepsWords(name: string, a: string, w: string, b: string)
    ensures NonSpace(NormalizeTagName(name)) == NonSpace(name)
    ensures a != [] && b != [] && Trimmed(a) && Trimmed(b) && w != [] && (forall i :: 0 <= i < |w| ==> IsSpace(w[i])) ==>
      NormalizeTagName(a + w + b) == Collapse(a) + [' '] + Collapse(b)
  {
    TrimKeepsNonSpace(name);
    CollapseKeepsNonSpace(Trim(name));
    if a != [] && b != [] && Trimmed(a) && Trimmed(b) && w != [] && (forall i :: 0 <= i < |w| ==> IsSpace(w[i])) {
      var s := a + w + b;
      assert s[0] == a[0] && s[|s| - 1] == b[|b| - 1];
      TrimOfTrimmed(s);
      CollapseWordBreak(a, w, b);
    }
  }

  /** A name normalises to "" exactly when it is empty or all whitespace. */
  lemma BlankNames(name: string)
    ensures NormalizeTagName(name) == [] <==> forall i :: 0 <= i < |name| ==> IsSpace(name[i])
  {
    var t := TrimStart(name);
    TrimStartOfSpaces(name);
    if Trim(name) != [] {
      assert Collapse(Trim(name)) != [];
    }
  }

  // ---------------------------------------------------------------------------------------------
  // POST /api/tags

  /**
   * The answers of the POST. `BodyNotJson` is the 500 the framework gives when `request.json()`
   * throws on a body that is not JSON.
   */
  datatype TagReply = Unauthorized | BodyNotJson | NameRequired | StoreFailed | Saved(tag: TagRow)

  /** The fields of a request body that parsed as JSON. */
  datatype TagBody = TagBody(name: Field, color: Field)

  /** The request's `name` after the string check: normalised, or "" when it is not a string. */
  function RequestedName(name: Field): (r: string)
    ensures name.Str? ==> r == NormalizeTagName(name.s)
    ensures !name.Str? ==> r == []
  {
    if name.Str? then NormalizeTagName(name.s) else []
  }

  /** The request's colour: the given string, else the default. */
  function RequestedColor(color: Field): (r: string)
    ensures color.Str? ==> r == color.s
    ensures !color.Str? ==> r == DefaultColor
  {
    if color.Str? then color.s else DefaultColor
  }

  datatype TagPost = TagPost(tags: seq<TagRow>, nextId: nat, reply: TagReply)

  /** What the POST does to the tags table, and its reply; `body` is None when it is not JSON. */
  function PostTag(t: Tables, user: Option<string>, body: Option<TagBody>): TagPost {
    if user.None? then TagPost(t.tags, t.nextId, Unauthorized)
    else if body.None? then TagPost(t.tags, t.nextId, BodyNotJson)
    else
      var n := RequestedName(body.value.name);
      if n == [] then TagPost(t.tags, t.nextId, NameRequired)
      else if TagsTable in t.down then TagPost(t.tags, t.nextId, StoreFailed)
      else
        var u := UpsertTag(t.tags, t.nextId, n, NormalizeTagKey(n), RequestedColor(body.value.color), user.value);
        TagPost(u.rows, u.nextId, Saved(u.row))
  }

  /** Past the checks, the post is the upsert of the normalised name on its key. */
  lemma PostTagSaves(t: Tables, user: string, name: Field, color: Field)
    requires RequestedName(name) != [] && TagsTable !in t.down
    ensures var n := RequestedName(name);
      var u := UpsertTag(t.tags, t.nextId, n, NormalizeTagKey(n), RequestedColor(color), user);
      PostTag(t, Some(user), Some(TagBody(name, color))) == TagPost(u.rows, u.nextId, Saved(u.row))
  {
  }

  /** The handler: validation with early returns, then one upsert on the key. */
  method Post(db: Db, user: Option<string>, body: Option<TagBody>) returns (reply: TagReply)
    requires db.Valid()
    modifies db`tags, db`nextId
    ensures var p := PostTag(old(db.State()), user, body);
      reply == p.reply && db.State() == old(db.State()).(tags := p.tags, nextId := p.nextId)
    ensures db.Valid()
  {
    ghost var t := db.State();
    PostKeepsValid(t, user, body);
    if user.None? {
      return Unauthorized;
    }
    if body.None? {
      return BodyNotJson;
    }
    var name, color := body.value.name, body.value.color;
    var n := RequestedName(name);
    var c := RequestedColor(color);
    if n == [] {
      return NameRequired;
    }
    var key := NormalizeTagKey(n);
    if TagsTable in db.down {
      return StoreFailed;
    }
    var u := UpsertTag(db.tags, db.nextId, n, key, c, user.value);
    PostTagSaves(t, user.value, name, color);
    db.tags, db.nextId := u.rows, u.nextId;
    reply := Saved(u.row);
  }

  /**
   * A missing user, a body that is not JSON, or a name that is absent, not a string, empty or all
   * whitespace, is refused before any write.
   */
  lemma RejectedBeforeWrite(t: Tables, user: Option<string>, body: Option<TagBody>)
    ensures var p := PostTag(t, user, body);
      && (user.None? ==> p.reply == Unauthorized)
      && (user.Some? && body.None? ==> p.reply == BodyNotJson)
      && (user.Some? && body.Some? && (!body.value.name.Str? || forall i :: 0 <= i < |body.value.name.s| ==> IsSpace(body.value.name.s[i])) ==>
            p.reply == NameRequired)
      && (!p.reply.Saved? ==> p.tags == t.tags && p.nextId == t.nextId)
  {
    if user.Some? && body.Some? {
      var name, color := body.value.name, body.value.color;
      var n := RequestedName(name);
      if name.Str? {
        BlankNames(name.s);
      }
      if n != [] && TagsTable !in t.down {
        var key := NormalizeTagKey(n);
        var u := UpsertTag(t.tags, t.nextId, n, key, RequestedColor(color), user.value);
        assert PostTag(t, user, body) == TagPost(u.rows, u.nextId, Saved(u.row));
      }
    }
  }

  /** Whatever the request, the store's constraints hold after the POST. */
  lemma PostKeepsValid(t: Tables, user: Option<string>, body: Option<TagBody>)
    requires TablesOk(t)
    ensures var p := PostTag(t, user, body); TablesOk(t.(tags := p.tags, nextId := p.nextId))
  {
    if user.Some? && body.Some? && RequestedName(body.value.name) != [] && TagsTable !in t.down {
      var n := RequestedName(body.value.name);
      var u := UpsertTag(t.tags, t.nextId, n, NormalizeTagKey(n), RequestedColor(body.value.color), user.value);
      UpsertTagEffect(t.tags, t.nextId, n, NormalizeTagKey(n), RequestedColor(body.value.color), user.value);
      WithTags(t, u.rows, u.nextId);
    }
  }

  /**
   * A saved tag carries the normalised name, the key of the raw name, the given colour (the default
   * when none is a string) and the user; it is the only tag with that key, an existing key keeps its
   * id, and the constraints hold afterwards.
   */
  lemma SavedTag(t: Tables, user: Option<string>, name: Field, color: Field)
    requires TagsOk(t.tags, t.nextId)
    ensures var p := PostTag(t, user, Some(TagBody(name, color)));
      p.reply.Saved? ==>
        && name.Str? && user.Some?
        && p.reply.tag == TagRow(p.reply.tag.id, NormalizeTagName(name.s), NormalizeTagKey(name.s), RequestedColor(color), user.value)
        && (!color.Str? ==> p.reply.tag.color == "#00a884")
        && TagsOk(p.tags, p.nextId)
        && (exists k :: 0 <= k < |p.tags| && p.tags[k] == p.reply.tag)
        && (forall i :: 0 <= i < |p.tags| && p.tags[i].normalizedName == NormalizeTagKey(name.s) ==> p.tags[i] == p.reply.tag)
        && (forall i :: 0 <= i < |t.tags| && t.tags[i].normalizedName == NormalizeTagKey(name.s) ==>
              p.reply.tag.id == t.tags[i].id && |p.tags| == |t.tags|)
        && |t.tags| <= |p.tags| <= |t.tags| + 1
  {
    if user.Some? && RequestedName(name) != [] && TagsTable !in t.down {
      var n := RequestedName(name);
      var key := NormalizeTagKey(n);
      assert key == NormalizeTagKey(name.s) by {
        NameIdempotent(name.s);
      }
      PostTagSaves(t, user.value, name, color);
      UpsertTagEffect(t.tags, t.nextId, n, key, RequestedColor(color), user.value);
    }
  }

  /** Two names with one key: their normalised names have that key, and both or neither are blank. */
  lemma SameKeyNames(a: string, b: string)
    requires NormalizeTagKey(a) == NormalizeTagKey(b)
    ensures NormalizeTagKey(NormalizeTagName(a)) == NormalizeTagKey(a)
    ensures NormalizeTagKey(NormalizeTagName(b)) == NormalizeTagKey(b)
    ensures NormalizeTagName(a) != [] <==> NormalizeTagName(b) != []
  {
    KeyIgnoresSpacing(a, b);
    KeyIgnoresSpacing(b, a);
    assert |NormalizeTagKey(b)| == |NormalizeTagName(b)|;
    assert |NormalizeTagKey(a)| == |NormalizeTagName(a)|;
  }

  /** Posting a name that differs only in case or spacing from a saved tag's updates that tag. */
  lemma SameKeySameTag(t: Tables, user: string, a: Field, b: Field, color: Field)
    requires TagsOk(t.tags, t.nextId) && a.Str? && b.Str?
    requires NormalizeTagKey(a.s) == NormalizeTagKey(b.s)
    ensures var first := PostTag(t, Some(user), Some(TagBody(a, color)));
      var second := PostTag(t.(tags := first.tags, nextId := first.nextId), Some(user), Some(TagBody(b, color)));
      first.reply.Saved? ==>
        second.reply.Saved? && second.reply.tag.id == first.reply.tag.id
        && |second.tags| == |first.tags| && second.nextId == first.nextId
  {
    var first := PostTag(t, Some(user), Some(TagBody(a, color)));
    if first.reply.Saved? {
      var c := RequestedColor(color);
      var na := NormalizeTagName(a.s);
      var key := NormalizeTagKey(na);
      var u1 := UpsertTag(t.tags, t.nextId, na, key, c, user);
      assert first == TagPost(u1.rows, u1.nextId, Saved(u1.row));
      UpsertTagEffect(t.tags, t.nextId, na, key, c, user);
      var k :| 0 <= k < |u1.rows| && u1.rows[k] == u1.row;
      var nb := NormalizeTagName(b.s);
      SameKeyNames(a.s, b.s);
      var t2 := t.(tags := u1.rows, nextId := u1.nextId);
      var u2 := UpsertTag(u1.rows, u1.nextId, nb, key, c, user);
      assert PostTag(t2, Some(user), Some(TagBody(b, color))) == TagPost(u2.rows, u2.nextId, Saved(u2.row));
      UpsertTagEffect(u1.rows, u1.nextId, nb, key, c, user);
      assert u1.rows[k].normalizedName == key;
    }
  }
}
