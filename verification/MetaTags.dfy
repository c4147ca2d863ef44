/**
  The tag loop of `parse_meta` in `src/link_preview.rs`: which `<meta` tags of a page are read, and what is
  collected from them.
*/
module MetaTags {
  import opened Wrappers
  import opened Text
  import opened TagAttrs

  const META: string := "<meta"

  /** A tag, from its `<` to its `>`, that one not included. */
  datatype Tag = Tag(start: nat, end: nat)

  /** The next tag at `pos` or later, if it is closed. */
  function NextTag(lower: string, pos: nat): (r: Option<Tag>)
    ensures r.Some? ==> pos <= r.value.start < r.value.end < |lower|
  {
    var start := Find(lower, META, pos);
    if start.None? then None
    else
      var end := Find(lower, ">", start.value);
      if end.None? then None
      else
        MarkBeforeEnd(lower, start.value, end.value);
        Some(Tag(start.value, end.value))
  }

  lemma MarkBeforeEnd(lower: string, start: nat, end: nat)
    requires OccursAt(lower, META, start) && start <= end && OccursAt(lower, ">", end)
    ensures start < end
  {
    OccursStartsWith(lower, META, start);
    OccursStartsWith(lower, ">", end);
  }

  /** The tags the loop reads from `pos` on. */
  function Tags(lower: string, pos: nat): seq<Tag>
    decreases |lower| - pos
  {
    var tag := NextTag(lower, pos);
    if tag.None? then [] else [tag.value] + Tags(lower, tag.value.end)
  }

  // ---------------------------------------------------------------- what a tag contributes

  /** `property`, or else `name`, in lower case, and the cleaned content, unless that is empty.
      `clean` stands for decoding entities and trimming. */
  function Entry(tag: string, clean: string -> string): Option<(string, string)> {
    var attrs := Parsed(tag);
    if "content" !in attrs || ("property" !in attrs && "name" !in attrs) then None
    else
      var key := if "property" in attrs then attrs["property"] else attrs["name"];
      var content := clean(attrs["content"]);
      if content == [] then None else Some((Lower(key), content))
  }

  /** The entry of one tag of the page. */
  function EntryOf(html: string, tag: Tag, clean: string -> string): Option<(string, string)> {
    if tag.start <= tag.end <= |html| then Entry(html[tag.start..tag.end], clean) else None
  }

  function Collected(html: string, tags: seq<Tag>, clean: string -> string, og: map<string, string>): map<string, string> {
    if tags == [] then og
    else
      var entry := EntryOf(html, tags[0], clean);
      var more := if entry.Some? && entry.value.0 !in og then og[entry.value.0 := entry.value.1] else og;
      Collected(html, tags[1..], clean, more)
  }

  method CollectMeta(html: string, clean: string -> string) returns (og: map<string, string>)
    ensures og == Collected(html, Tags(Lower(html), 0), clean, map[])
  {
    og := map[];
    var lower := Lower(html);
    LowerKeepsLength(html);
    var pos := 0;
    while true
      invariant pos <= |lower|
      invariant Collected(html, Tags(lower, 0), clean, map[]) == Collected(html, Tags(lower, pos), clean, og)
      decreases |lower| - pos
    {
      var start := Find(lower, META, pos);
      if start.None? {
        break;
      }
      var end := Find(lower, ">", start.value);
      if end.None? {
        break;
      }
      MarkBeforeEnd(lower, start.value, end.value);
      var attrs := ParseAttrs(html[start.value..end.value]);
      if "content" in attrs && ("property" in attrs || "name" in attrs) {
        var key := Lower(if "property" in attrs then attrs["property"] else attrs["name"]);
        var content := clean(attrs["content"]);
        if content != [] && key !in og {
          og := og[key := content];
        }
      }
      pos := end.value;
    }
  }

  // ---------------------------------------------------------------- which tags are read

  /** A tag as the loop reads it: `<meta` at its start, and the first `>` from there at its end. */
  ghost predicate IsTag(lower: string, tag: Tag) {
    && tag.start < tag.end && OccursAt(lower, META, tag.start) && OccursAt(lower, ">", tag.end)
    && forall k :: tag.start <= k < tag.end ==> !OccursAt(lower, ">", k)
  }

  lemma NextIsTag(lower: string, pos: nat)
    requires NextTag(lower, pos).Some?
    ensures pos <= NextTag(lower, pos).value.start && IsTag(lower, NextTag(lower, pos).value)
  {
    var start := Find(lower, META, pos).value;
    var end := Find(lower, ">", start).value;
    assert OccursAt(lower, META, start);
    assert OccursAt(lower, ">", end);
    assert forall k :: start <= k < end ==> !OccursAt(lower, ">", k);
    assert NextTag(lower, pos).value == Tag(start, end);
  }

  /** From `pos` on, each tag ends after it starts, and starts no earlier than the one before it ended. */
  ghost predicate Advance(tags: seq<Tag>, pos: nat) {
    && (forall i :: 0 <= i < |tags| ==> pos <= tags[i].start < tags[i].end)
    && (forall i, j :: 0 <= i < j < |tags| ==> tags[i].end <= tags[j].start)
  }

  lemma OneMoreTag(tag: Tag, rest: seq<Tag>, pos: nat)
    requires pos <= tag.start < tag.end && Advance(rest, tag.end)
    ensures Advance([tag] + rest, pos)
  {
  }

  /** The scan position strictly advances on every tag. */
  lemma {:induction false} TagsAdvance(lower: string, pos: nat)
    ensures Advance(Tags(lower, pos), pos)
    decreases |lower| - pos
  {
    if NextTag(lower, pos).Some? {
      var tag := NextTag(lower, pos).value;
      TagsAdvance(lower, tag.end);
      OneMoreTag(tag, Tags(lower, tag.end), pos);
    }
  }

  /** Each tag that is read starts with `<meta` and ends at the first `>` after that. */
  lemma {:induction false} TagsAreTags(lower: string, pos: nat, i: nat)
    requires i < |Tags(lower, pos)|
    ensures IsTag(lower, Tags(lower, pos)[i])
    decreases i
  {
    var tag := NextTag(lower, pos).value;
    if i == 0 {
      NextIsTag(lower, pos);
    } else {
      TagsAreTags(lower, tag.end, i - 1);
    }
  }

  lemma NextIsNoLater(lower: string, pos: nat, k: nat, close: nat)
    requires pos <= k < close && OccursAt(lower, META, k) && OccursAt(lower, ">", close)
    ensures NextTag(lower, pos).Some? && NextTag(lower, pos).value.start <= k
  {
  }

  /** No tag is missed: a `<meta` that a `>` follows is the start of a tag that is read, or inside one. */
  lemma {:induction false} NoTagIsMissed(lower: string, pos: nat, k: nat, close: nat) returns (i: nat)
    requires pos <= k < close && OccursAt(lower, META, k) && OccursAt(lower, ">", close)
    ensures i < |Tags(lower, pos)| && Tags(lower, pos)[i].start <= k < Tags(lower, pos)[i].end
    decreases |lower| - pos
  {
    NextIsNoLater(lower, pos, k, close);
    var tag := NextTag(lower, pos).value;
    if k < tag.end {
      i := 0;
    } else {
      var j := NoTagIsMissed(lower, tag.end, k, close);
      i := j + 1;
    }
  }

  // ---------------------------------------------------------------- what is collected

  /** Attribute `i` is the first to give `key` a value. */
  ghost predicate FirstGives(attrs: seq<Attr>, i: int, key: string) {
    Gives(attrs, i, key) && forall j :: 0 <= j < i ==> !Gives(attrs, j, key)
  }

  ghost predicate NoneGives(attrs: seq<Attr>, key: string) { forall i :: !Gives(attrs, i, key) }

  /** A printed tag contributes its first content under its first `property`, or under its first `name` when
      it has no `property`; without one of the two, or without content left to show, it contributes nothing. */
  lemma PrintedTagMeans(name: string, attrs: seq<Attr>, tail: string, clean: string -> string, k: int, c: int)
    requires All(name, NotSpace) && Printable(attrs, tail, Space)
    ensures var entry := Entry(name + PrintAll(attrs, tail), clean);
            && ((FirstGives(attrs, k, "property") || (NoneGives(attrs, "property") && FirstGives(attrs, k, "name")))
                && FirstGives(attrs, c, "content")
                ==> entry == if clean(attrs[c].written.text) == [] then None
                             else Some((Lower(attrs[k].written.text), clean(attrs[c].written.text))))
            && (NoneGives(attrs, "content") || (NoneGives(attrs, "property") && NoneGives(attrs, "name")) ==> entry == None)
  {
    PrintedTagParses(name, attrs, tail);
    FirstWinsMeans(attrs, "property");
    FirstWinsMeans(attrs, "name");
    FirstWinsMeans(attrs, "content");
  }

  /** Tag `i` contributes content under `key`. */
  ghost predicate Carries(html: string, tags: seq<Tag>, i: int, clean: string -> string, key: string) {
    0 <= i < |tags| && EntryOf(html, tags[i], clean).Some? && EntryOf(html, tags[i], clean).value.0 == key
  }

  /** It is the first to do so, and the content is `content`. */
  ghost predicate CarriesFirst(html: string, tags: seq<Tag>, i: int, clean: string -> string, key: string, content: string) {
    && Carries(html, tags, i, clean, key) && EntryOf(html, tags[i], clean).value.1 == content
    && forall j :: 0 <= j < i ==> !Carries(html, tags, j, clean, key)
  }

  /** A key has the content of the first tag that carries it, and what was there before wins over all. */
  lemma {:induction false} FirstTagWins(html: string, tags: seq<Tag>, clean: string -> string, og: map<string, string>, key: string)
    ensures var all := Collected(html, tags, clean, og);
            && (key in og ==> key in all && all[key] == og[key])
            && (key !in og && key in all ==> exists i :: CarriesFirst(html, tags, i, clean, key, all[key]))
            && (key !in all ==> forall i :: !Carries(html, tags, i, clean, key))
  {
    if tags != [] {
      var entry := EntryOf(html, tags[0], clean);
      var more := if entry.Some? && entry.value.0 !in og then og[entry.value.0 := entry.value.1] else og;
      var rest := tags[1..];
      FirstTagWins(html, rest, clean, more, key);
      var all := Collected(html, tags, clean, og);
      assert forall j :: 0 < j ==> (Carries(html, tags, j, clean, key) <==> Carries(html, rest, j - 1, clean, key));
      if key !in og && key in all {
        if key in more {
          assert CarriesFirst(html, tags, 0, clean, key, all[key]);
        } else {
          var i :| CarriesFirst(html, rest, i, clean, key, all[key]);
          assert !Carries(html, tags, 0, clean, key);
          assert CarriesFirst(html, tags, i + 1, clean, key, all[key]);
        }
      }
    }
  }
}
