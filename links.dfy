/**
 * The link record stored by the server, the defaulting rules applied when a
 * record is created, the six sample records written on first start, and the
 * removal of one record by position.
 */
module Links {
  import opened Wrappers

  /**
   * One stored record. `title` and `url` are copied from the request body
   * without any check, so they may be absent; `emoji` and `description` are
   * always materialised as text.
   */
  datatype Link = Link(title: Option<string>, url: Option<string>, emoji: string, description: string)

  /** The fields of a POST body; an absent JSON key is `None`. */
  datatype LinkRequest = LinkRequest(
    title: Option<string>,
    url: Option<string>,
    emoji: Option<string>,
    description: Option<string>)

  const DefaultEmoji: string := "🔗"
  const DefaultDescription: string := ""

  /** JavaScript truthiness of an optional string: absent and "" are falsy. */
  predicate Truthy(v: Option<string>) {
    v.Some? && v.value != ""
  }

  /** The JavaScript expression `v || fallback` on an optional string. */
  function OrElse(v: Option<string>, fallback: string): string {
    if Truthy(v) then v.value else fallback
  }

  /** The record the POST handler builds from a request body. */
  function MakeLink(req: LinkRequest): (l: Link)
    ensures l.title == req.title && l.url == req.url
    ensures (req.emoji == None || req.emoji == Some("")) ==> l.emoji == DefaultEmoji
    ensures req.emoji.Some? && req.emoji.value != "" ==> l.emoji == req.emoji.value
    ensures (req.description == None || req.description == Some("")) ==> l.description == ""
    ensures req.description.Some? ==> l.description == req.description.value
    ensures l.emoji != ""
  {
    Link(req.title, req.url, OrElse(req.emoji, DefaultEmoji), OrElse(req.description, DefaultDescription))
  }

  /** The request a client sends when it posts back the fields of a stored record. */
  function AsRequest(l: Link): LinkRequest {
    LinkRequest(l.title, l.url, Some(l.emoji), Some(l.description))
  }

  /**
   * Posting a stored record's own fields reproduces that record exactly when
   * its emoji is not empty: an empty emoji is replaced by the default, while
   * an empty description is replaced by the equal default "".
   */
  lemma MakeLinkRoundTrip(l: Link)
    ensures MakeLink(AsRequest(l)) == l <==> l.emoji != ""
  {
  }

  /** The six sample records written when the data file does not exist. */
  const DefaultLinks: seq<Link> := [
    Link(Some("LMS Kampus"), Some("https://lms.example.edu"), "📚", "Platform e-learning utama"),
    Link(Some("Google Classroom"), Some("https://classroom.google.com"), "🎓", "Kelas online"),
    Link(Some("Zoom Meeting"), Some("https://zoom.us"), "💻", "Video conference"),
    Link(Some("Microsoft Teams"), Some("https://teams.microsoft.com"), "👥", "Kolaborasi tim"),
    Link(Some("Google Drive"), Some("https://drive.google.com"), "📁", "Penyimpanan file"),
    Link(Some("Quizizz"), Some("https://quizizz.com"), "🎮", "Kuis interaktif")
  ]

  /** Every sample record has a title, a url and a non-empty emoji. */
  lemma DefaultLinksComplete()
    ensures |DefaultLinks| == 6
    ensures forall k :: 0 <= k < |DefaultLinks| ==>
      DefaultLinks[k].title.Some? && DefaultLinks[k].title.value != "" &&
      DefaultLinks[k].url.Some? && DefaultLinks[k].url.value != "" &&
      DefaultLinks[k].emoji != ""
  {
  }

  /**
   * `links.splice(i, 1)`: remove the element at position `i`; the elements
   * before it keep their positions and the ones after it move down by one.
   */
  function RemoveAt<T>(s: seq<T>, i: nat): (r: seq<T>)
    requires i < |s|
    ensures |r| == |s| - 1
    ensures forall j :: 0 <= j < i ==> r[j] == s[j]
    ensures forall j :: i <= j < |r| ==> r[j] == s[j + 1]
  {
    s[..i] + s[i + 1..]
  }

  /** Removing position `i` takes away exactly the one element `s[i]`. */
  lemma RemoveAtMultiset<T>(s: seq<T>, i: nat)
    requires i < |s|
    ensures multiset(RemoveAt(s, i)) + multiset{s[i]} == multiset(s)
  {
    assert s == s[..i] + [s[i]] + s[i + 1..];
  }

  /**
   * Deleting the last position right after an append gives back the sequence
   * as it was before the append.
   */
  lemma RemoveAtUndoesAppend<T>(s: seq<T>, x: T)
    ensures RemoveAt(s + [x], |s|) == s
  {
  }
}
