/**
 * The JSDoc helpers of `src/common.ts`. They signal "nothing" with `null`,
 * unlike their namesakes in the transformer, which use `undefined`.
 */
module Common {
  import opened Base
  import opened Model

  /** `getJSDoc`: the last JSDoc block, or `null` when there is none. */
  function GetJSDoc(docs: seq<JSDoc>): (r: Maybe<JSDoc>)
    ensures r != Undefined
    ensures r == Null <==> docs == []
    ensures r.Present? ==> r.value == docs[|docs| - 1]
  {
    if |docs| == 0 then Null else Present(docs[|docs| - 1])
  }

  /** `s.replace(/^@/, '')`: drops one leading `@`, if there is one. */
  function StripAt(s: string): (r: string)
    ensures r == if |s| > 0 && s[0] == '@' then s[1..] else s
    ensures |s| > 0 && s[0] == '@' ==> [s[0]] + r == s
  {
    if |s| > 0 && s[0] == '@' then s[1..] else s
  }

  /** `stringifyJSDocTag`: the tag's text without one leading `@`, trimmed. */
  function StringifyJSDocTag(tag: JSDocTag): string {
    Trim(StripAt(tag.text))
  }

  /**
   * `stringifyJSDocTag` over every tag: the text is an optional `@` (present
   * exactly when the text starts with one), whitespace, the result, and
   * whitespace; the result has no whitespace at either end.
   */
  lemma StringifySpec(tag: JSDocTag)
    ensures var r := StringifyJSDocTag(tag);
      (r != [] ==> !IsWhitespace(r[0]) && !IsWhitespace(r[|r| - 1])) &&
      exists pre, post :: AllWhitespace(pre) && AllWhitespace(post) &&
        tag.text == (if StartsWith(tag.text, "@") then "@" else "") + pre + r + post
  {
    var s := StripAt(tag.text);
    var r := Trim(s);
    TrimEdges(s);
    var pre, post := TrimParts(s);
    var at := if StartsWith(tag.text, "@") then "@" else "";
    assert tag.text == at + s;
    ConcatRegroup(at, pre, r, post);
  }

  /** Only one `@` is removed: a tag written `@@x` reads as `@x`. */
  lemma StringifyStripsOneAt(tag: JSDocTag, rest: string)
    requires tag.text == "@@" + rest
    requires rest != [] ==> !IsWhitespace(rest[0]) && !IsWhitespace(rest[|rest| - 1])
    ensures StringifyJSDocTag(tag) == "@" + rest
  {
    assert StripAt(tag.text) == "@" + rest;
    TrimOfTrimmed("@" + rest);
  }

  /** What `getJSDocTags` accepts: a name to compare with, or a predicate on the name. */
  datatype TagPredicate = Exactly(name: string) | Satisfies(test: string -> bool)

  predicate Accepts(p: TagPredicate, tag: JSDocTag) {
    match p
    case Exactly(name) => name == StringifyJSDocTag(tag)
    case Satisfies(test) => test(StringifyJSDocTag(tag))
  }

  /** The predicate as a test on tags. */
  function Acceptor(p: TagPredicate): JSDocTag -> bool {
    tag => Accepts(p, tag)
  }

  /** The tags the predicate accepts, in their original order. */
  function Matching(tags: seq<JSDocTag>, p: TagPredicate): seq<JSDocTag> {
    Keep(tags, Acceptor(p))
  }

  /** Only accepted tags of the block are kept, and never more tags than the block has. */
  lemma MatchingSound(tags: seq<JSDocTag>, p: TagPredicate)
    ensures |Matching(tags, p)| <= |tags|
    ensures forall t :: t in Matching(tags, p) ==> t in tags && Accepts(p, t)
  {
    var r := Keep(tags, Acceptor(p));
    forall t | t in r ensures t in tags && Accepts(p, t) {
      assert Acceptor(p)(t);
    }
  }

  /** Filtering distributes over concatenation: the kept tags keep their relative order. */
  lemma MatchingAppend(a: seq<JSDocTag>, b: seq<JSDocTag>, p: TagPredicate)
    ensures Matching(a + b, p) == Matching(a, p) + Matching(b, p)
  {
    KeepAppend(a, b, Acceptor(p));
  }

  /** The filter comes out empty exactly when the predicate accepts no tag. */
  lemma MatchingEmpty(tags: seq<JSDocTag>, p: TagPredicate)
    ensures Matching(tags, p) == [] <==> forall i :: 0 <= i < |tags| ==> !Accepts(p, tags[i])
  {
    KeepEmpty(tags, Acceptor(p));
    assert forall i :: 0 <= i < |tags| ==> (Acceptor(p)(tags[i]) <==> Accepts(p, tags[i]));
  }

  /** Every accepted tag is kept: nothing the predicate accepts is dropped. */
  lemma MatchingKeeps(tags: seq<JSDocTag>, p: TagPredicate, i: nat)
    requires i < |tags| && Accepts(p, tags[i])
    ensures tags[i] in Matching(tags, p)
  {
    assert Acceptor(p)(tags[i]);
    KeepKeeps(tags, Acceptor(p), i);
  }

  /** `getJSDocTags`: the accepted tags, or `null` instead of an empty list. */
  function GetJSDocTags(jsdoc: JSDoc, p: TagPredicate): (r: Maybe<seq<JSDocTag>>)
    ensures r != Undefined
    ensures r == Null <==> forall i :: 0 <= i < |jsdoc.tags| ==> !Accepts(p, jsdoc.tags[i])
    ensures r.Present? ==> r.value == Matching(jsdoc.tags, p)
  {
    var res := Matching(jsdoc.tags, p);
    MatchingEmpty(jsdoc.tags, p);
    if |res| == 0 then Null else Present(res)
  }

  /** The index of the first tag the predicate accepts, or `|tags|` when there is none. */
  function FirstAccepted(tags: seq<JSDocTag>, p: TagPredicate): (i: nat)
    ensures i <= |tags|
    ensures i < |tags| ==> Accepts(p, tags[i])
    ensures forall j :: 0 <= j < i ==> !Accepts(p, tags[j])
  {
    var i := FirstIndex(tags, Acceptor(p));
    assert forall j :: 0 <= j < i ==> !Acceptor(p)(tags[j]);
    i
  }

  /** The first tag kept is the first tag accepted. */
  lemma MatchingFirst(tags: seq<JSDocTag>, p: TagPredicate)
    requires FirstAccepted(tags, p) < |tags|
    ensures Matching(tags, p) != [] && Matching(tags, p)[0] == tags[FirstAccepted(tags, p)]
  {
    KeepFirst(tags, Acceptor(p), FirstIndex(tags, Acceptor(p)));
  }

  /** `getJSDocTag`: the first accepted tag, or `null`. */
  function GetJSDocTag(jsdoc: JSDoc, p: TagPredicate): (r: Maybe<JSDocTag>)
    ensures r != Undefined
    ensures r == Null <==> FirstAccepted(jsdoc.tags, p) == |jsdoc.tags|
    ensures r.Present? ==> r.value == jsdoc.tags[FirstAccepted(jsdoc.tags, p)]
  {
    var tags := GetJSDocTags(jsdoc, p);
    if tags == Null then Null
    else
      MatchingFirst(jsdoc.tags, p);
      Present(tags.value[0])
  }
}
