/** The text of one log entry:

      [<rendered time>]: [<meta 1>][<meta 2>]... - <content>\n

    where the time prefix and the tag segment (tags plus " - ") are each present
    or absent on their own. The rendered time is an input: reading the clock and
    applying the time-stamp format happen outside this model. */
module EntryFormat {
  import opened Wrappers

  /** The `meta` argument of an entry: a boolean (which then stands for the
      time-stamp flag), an array of tags, or any other scalar (ignored). */
  datatype MetaArg = Flag(on: bool) | Items(tags: seq<string>) | Scalar

  /** Whether the entry gets a time prefix: a boolean `meta` overrides `timestamp`. */
  function StampOn(meta: MetaArg, timestamp: bool): bool
  {
    if meta.Flag? then meta.on else timestamp
  }

  function Prefix(now: string): string
  {
    "[" + now + "]: "
  }

  function Tag(m: string): string
  {
    "[" + m + "]"
  }

  /** The bracketed tags, one per item, in order. */
  function Tags(ms: seq<string>): string
  {
    if ms == [] then "" else Tag(ms[0]) + Tags(ms[1..])
  }

  /** The tag segment: present only for a non-empty array of tags. */
  function MetaSegment(meta: MetaArg): string
  {
    if meta.Items? && |meta.tags| > 0 then Tags(meta.tags) + " - " else ""
  }

  /** The entry line built from the arguments of one entry call. */
  function Line(content: string, meta: MetaArg, timestamp: bool, now: string): string
  {
    (if StampOn(meta, timestamp) then Prefix(now) else "") + MetaSegment(meta) + content + "\n"
  }

  /** The three parts of a line, kept apart so that callers need not unfold
      the tag segment. */
  lemma LineParts(content: string, meta: MetaArg, timestamp: bool, now: string)
    ensures Line(content, meta, timestamp, now)
      == (if StampOn(meta, timestamp) then Prefix(now) else "") + MetaSegment(meta) + content + "\n"
  {
  }

  lemma SeparatorAssoc(head: string, tags: string, content: string)
    ensures head + (tags + " - ") + content + "\n" == head + tags + " - " + content + "\n"
  {
  }

  /** Tags of a concatenation are the concatenation of the tags. */
  lemma {:induction false} TagsAppend(a: seq<string>, b: seq<string>)
    ensures Tags(a + b) == Tags(a) + Tags(b)
  {
    if a == [] {
      assert a + b == b;
    } else {
      assert (a + b)[1..] == a[1..] + b;
      TagsAppend(a[1..], b);
    }
  }

  /** Extending the items by one appends that item's tag. */
  lemma TagsSnoc(ms: seq<string>, i: nat)
    requires i < |ms|
    ensures Tags(ms[..i + 1]) == Tags(ms[..i]) + Tag(ms[i])
  {
    assert ms[..i + 1] == ms[..i] + [ms[i]];
    TagsAppend(ms[..i], [ms[i]]);
    assert Tags([ms[i]]) == Tag(ms[i]) + Tags([]);
  }

  /** Item `k` is rendered as its own bracketed tag, after the tags of every item
      before it and before the tags of every item after it. */
  lemma TagsSplit(ms: seq<string>, k: nat)
    requires k < |ms|
    ensures Tags(ms) == Tags(ms[..k]) + Tag(ms[k]) + Tags(ms[k + 1..])
  {
    var tail := ms[k..];
    assert ms == ms[..k] + tail;
    TagsAppend(ms[..k], tail);
    assert tail[0] == ms[k] && tail[1..] == ms[k + 1..];
  }

  /** Timestamp off and no tags: the line is the content and a newline. */
  lemma PlainLine(content: string, meta: MetaArg, timestamp: bool, now: string)
    requires !StampOn(meta, timestamp)
    requires !(meta.Items? && |meta.tags| > 0)
    ensures Line(content, meta, timestamp, now) == content + "\n"
  {
  }

  /** A non-empty array of tags puts one tag per item, in order, then " - ". */
  lemma TaggedLine(content: string, tags: seq<string>, timestamp: bool, now: string)
    requires |tags| > 0
    ensures Line(content, Items(tags), timestamp, now)
      == (if timestamp then Prefix(now) else "") + Tags(tags) + " - " + content + "\n"
  {
    LineParts(content, Items(tags), timestamp, now);
    SeparatorAssoc(if timestamp then Prefix(now) else "", Tags(tags), content);
  }

  /** An empty array of tags adds neither tags nor " - ". */
  lemma UntaggedLine(content: string, timestamp: bool, now: string)
    ensures Line(content, Items([]), timestamp, now)
      == (if timestamp then Prefix(now) else "") + content + "\n"
  {
    assert MetaSegment(Items([])) == "";
  }

  /** A boolean `meta` decides the time prefix whatever `timestamp` says, and
      yields no tag segment. */
  lemma FlagLine(content: string, on: bool, timestamp: bool, now: string)
    ensures Line(content, Flag(on), timestamp, now) == Line(content, Flag(on), on, now)
    ensures Line(content, Flag(on), timestamp, now)
      == (if on then Prefix(now) else "") + content + "\n"
  {
  }

  /** Splits `s` at its first ']' into the text before it and the rest after it. */
  function SplitTag(s: string): (r: Option<(string, string)>)
    ensures r.Some? ==> s == r.value.0 + "]" + r.value.1 && ']' !in r.value.0
    ensures r.None? ==> ']' !in s
  {
    if s == [] then None
    else if s[0] == ']' then Some(("", s[1..]))
    else match SplitTag(s[1..])
      case None => None
      case Some((m, rest)) => Some(([s[0]] + m, rest))
  }

  /** Reads a run of bracketed tags back into its items. */
  function ParseTags(s: string): Option<seq<string>>
    decreases |s|
  {
    if s == [] then Some([])
    else if s[0] != '[' then None
    else match SplitTag(s[1..])
      case None => None
      case Some((m, rest)) =>
        match ParseTags(rest)
        case None => None
        case Some(ms) => Some([m] + ms)
  }

  lemma {:induction false} SplitTagOf(m: string, rest: string)
    requires ']' !in m
    ensures SplitTag(m + "]" + rest) == Some((m, rest))
  {
    if m == [] {
      assert m + "]" + rest == "]" + rest;
    } else {
      assert (m + "]" + rest)[1..] == m[1..] + "]" + rest;
      SplitTagOf(m[1..], rest);
      assert [m[0]] + m[1..] == m;
    }
  }

  /** Tags whose items hold no ']' read back to the same items; the tag segment
      of an entry therefore records the meta items exactly. */
  lemma {:induction false} TagsRoundTrip(ms: seq<string>)
    requires forall i :: 0 <= i < |ms| ==> ']' !in ms[i]
    ensures ParseTags(Tags(ms)) == Some(ms)
  {
    if ms != [] {
      var s := Tags(ms);
      assert s == "[" + (ms[0] + "]" + Tags(ms[1..]));
      assert s[1..] == ms[0] + "]" + Tags(ms[1..]);
      SplitTagOf(ms[0], Tags(ms[1..]));
      TagsRoundTrip(ms[1..]);
      assert [ms[0]] + ms[1..] == ms;
    }
  }

  /** A ']' inside an item makes two different tag arrays render alike. */
  lemma BracketInItemIsAmbiguous()
    ensures Tags(["a][b"]) == Tags(["a", "b"])
  {
    assert Tags(["b"]) == "[b]";
  }
}
