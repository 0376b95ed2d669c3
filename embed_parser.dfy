/** The Mailer's embed markup: the HTML a newsletter shows in place of an
    embedded post or video, a linked thumbnail, a Twitter button or the bare
    link. */
module EmbedParser {
  import opened Wrappers
  import opened PhpValues

  /** PHP_EOL on the servers the Mailer runs on. */
  const PhpEol: string := "\n"

  const AnchorStyle: string :=
    "color:#181818;padding:0;margin:0;Margin:0;line-height:1.3;text-decoration:none;text-align: center; display: block;width:100%;"

  const ImageStyle: string :=
    "outline:none;text-decoration:none;-ms-interpolation-mode:bicubic;max-width:100%;clear:both;display:inline;width:100%;height:auto;"

  const TwitterStyle: string :=
    "display: block;margin: 0 0 20px;padding: 7px 10px;text-decoration: none;text-align: center;font-weight: bold;"
    + "font-family:'Helvetica Neue', Helvetica, Arial;color: #249fdc; background: #ffffff; border: 3px solid #249fdc;"
    + "margin: 16px 0 16px 0"

  const LinkSpanOpen: string := "<span style='text-decoration: underline; color: #1F3F83;'>"

  const VideoStyle: string :=
    "color: #888;font-family: Arial,sans-serif;font-size: 14px;margin: 0; padding: 0;margin-top:5px;line-height: 1.3;"
    + "text-align: left; text-decoration: none;"

  /** The opening anchor every non-Twitter embed is wrapped in. */
  function AnchorOpen(link: string): string
  {
    "<a href='" + link + "' target='_blank' style='" + AnchorStyle + "'>"
  }

  /** The start of the thumbnail tag: its source and its alternative text. */
  function ImageSource(image: string, title: string): string
  {
    "<img src='" + image + "' alt='" + title + "'"
  }

  /** The thumbnail, with the title as its alternative text. */
  function ImageTag(image: string, title: string): string
  {
    ImageSource(image, title) + " style='" + ImageStyle + "'>"
  }

  /** The link itself, underlined. */
  function LinkSpan(link: string): string
  {
    LinkSpanOpen + link + "</span>"
  }

  function TwitterHref(link: string): string
  {
    "href=\"" + link + "\""
  }

  function TwitterAnchor(link: string): string
  {
    "<a style=\"" + TwitterStyle + "\" " + TwitterHref(link) + " target=\"_blank\">Zobrazi\U{0165} na Twitteri</a>"
  }

  /** The fixed "Zobrazi\U{0165} na Twitteri" button that links to a tweet. */
  function TwitterButton(link: string): string
  {
    "<br>" + TwitterAnchor(link)
  }

  function Italic(text: string): string
  {
    "<i>" + text + "</i>"
  }

  /** The paragraph added under a video embed. */
  function VideoParagraph(videoLinkText: string): string
  {
    "<p style='" + VideoStyle + "'>" + Italic(videoLinkText) + "</p><br>"
  }

  /** A link is taken for a tweet when it contains "twitt" anywhere. */
  predicate IsTwitterLink(link: string)
  {
    Contains(link, "twitt")
  }

  /** The closing anchor and line break of every non-Twitter embed. */
  const Closing: string := "</a>" + PhpEol

  // -----------------------------------------------------------------------
  // Concatenation facts, stated once over arbitrary strings

  lemma Assoc(a: string, b: string, c: string)
    ensures a + (b + c) == (a + b) + c
  {
  }

  lemma StartsWithConcat(a: string, b: string)
    ensures StartsWith(a + b, a)
  {
    assert (a + b)[..|a|] == a;
  }

  lemma StartsWithAppend(s: string, prefix: string, t: string)
    requires StartsWith(s, prefix)
    ensures StartsWith(s + t, prefix)
  {
    assert (s + t)[..|prefix|] == s[..|prefix|];
  }

  lemma EndsWithConcat(a: string, b: string, c: string)
    ensures EndsWith(a + b + c, b + c)
  {
    assert (a + b + c)[|a + b + c| - |b + c|..] == b + c;
  }

  lemma {:induction false} ContainsAppend(s: string, needle: string, t: string)
    requires Contains(s, needle)
    ensures Contains(s + t, needle)
    decreases |s|
  {
    if StartsWith(s, needle) {
      StartsWithAppend(s, needle, t);
    } else {
      assert (s + t)[1..] == s[1..] + t;
      ContainsAppend(s[1..], needle, t);
    }
  }

  lemma {:induction false} ContainsPrepend(s: string, t: string, needle: string)
    requires Contains(t, needle)
    ensures Contains(s + t, needle)
    decreases |s|
  {
    if s == [] {
      assert s + t == t;
    } else {
      assert (s + t)[1..] == s[1..] + t;
      ContainsPrepend(s[1..], t, needle);
    }
  }

  lemma ContainsItself(needle: string)
    ensures Contains(needle, needle)
  {
    assert needle[..|needle|] == needle;
  }

  // -----------------------------------------------------------------------
  // The markup

  /** The part of a non-Twitter embed between the opening and the closing
      anchor: the thumbnail or the underlined link, then the video paragraph. */
  function Inner(link: string, title: string, image: Option<string>, isVideo: bool, videoLinkText: string): string
  {
    (if image.Some? then ImageTag(image.value, title) else LinkSpan(link))
    + (if isVideo then VideoParagraph(videoLinkText) else "")
  }

  /** createEmbedMarkup(): with an image, a linked thumbnail; without one, the
      Twitter button for a tweet, or else the underlined link; a video adds a
      paragraph with the video link text. `videoLinkText` is the parser's
      configured text. */
  function CreateEmbedMarkup(link: string, title: string, image: Option<string>, isVideo: bool,
                             videoLinkText: string): (html: string)
    ensures StartsWith(html, "<br>")
    ensures image.None? && IsTwitterLink(link) ==> html == TwitterButton(link)
    ensures !(image.None? && IsTwitterLink(link)) ==>
              html == "<br>" + AnchorOpen(link) + Inner(link, title, image, isVideo, videoLinkText) + Closing
  {
    if image.None? && IsTwitterLink(link) then
      StartsWithConcat("<br>", TwitterAnchor(link));
      TwitterButton(link)
    else
      var front := "<br>" + AnchorOpen(link) + Inner(link, title, image, isVideo, videoLinkText);
      StartsWithConcat("<br>", AnchorOpen(link));
      StartsWithAppend("<br>" + AnchorOpen(link), "<br>", Inner(link, title, image, isVideo, videoLinkText));
      StartsWithAppend(front, "<br>", Closing);
      front + Closing
  }

  /** Every non-Twitter embed is the anchor to the link, closed by "</a>" and
      a line break. */
  lemma AnchorEmbed(link: string, title: string, image: Option<string>, isVideo: bool, videoLinkText: string)
    requires !(image.None? && IsTwitterLink(link))
    ensures var html := CreateEmbedMarkup(link, title, image, isVideo, videoLinkText);
            && StartsWith(html, "<br>" + AnchorOpen(link))
            && EndsWith(html, Closing)
  {
    var head := "<br>" + AnchorOpen(link);
    var inner := Inner(link, title, image, isVideo, videoLinkText);
    StartsWithConcat(head, inner);
    StartsWithAppend(head + inner, head, Closing);
    EndsWithConcat(head + inner, [], Closing);
    assert head + inner + [] == head + inner;
    assert [] + Closing == Closing;
  }

  /** With an image, the output holds the thumbnail with the image as source
      and the title as alternative text, whatever the link says: a tweet with
      an image gets no button. */
  lemma ImageEmbed(link: string, title: string, image: string, isVideo: bool, videoLinkText: string)
    ensures var html := CreateEmbedMarkup(link, title, Some(image), isVideo, videoLinkText);
            && Contains(html, ImageSource(image, title))
            && StartsWith(html, "<br>" + AnchorOpen(link))
            && EndsWith(html, Closing)
  {
    var head := "<br>" + AnchorOpen(link);
    var video := if isVideo then VideoParagraph(videoLinkText) else "";
    var needle := ImageSource(image, title);
    ContainsItself(needle);
    ContainsAppend(needle, needle, " style='" + ImageStyle + "'>");
    ContainsAppend(ImageTag(image, title), needle, video);
    ContainsPrepend(head, Inner(link, title, Some(image), isVideo, videoLinkText), needle);
    ContainsAppend(head + Inner(link, title, Some(image), isVideo, videoLinkText), needle, Closing);
    AnchorEmbed(link, title, Some(image), isVideo, videoLinkText);
  }

  /** Without an image, a tweet link gives the fixed button pointing at it,
      the same with or without the video flag. */
  lemma TwitterEmbed(link: string, title: string, isVideo: bool, videoLinkText: string)
    requires IsTwitterLink(link)
    ensures var html := CreateEmbedMarkup(link, title, None, isVideo, videoLinkText);
            && html == CreateEmbedMarkup(link, title, None, !isVideo, videoLinkText)
            && Contains(html, TwitterHref(link))
  {
    var needle := TwitterHref(link);
    var before := "<a style=\"" + TwitterStyle + "\" ";
    ContainsItself(needle);
    ContainsPrepend(before, needle, needle);
    ContainsAppend(before + needle, needle, " target=\"_blank\">Zobrazi\U{0165} na Twitteri</a>");
    ContainsPrepend("<br>", TwitterAnchor(link), needle);
  }

  /** Without an image or a tweet, the anchor holds the link itself,
      underlined. */
  lemma LinkEmbed(link: string, title: string, isVideo: bool, videoLinkText: string)
    requires !IsTwitterLink(link)
    ensures Contains(CreateEmbedMarkup(link, title, None, isVideo, videoLinkText), LinkSpan(link))
  {
    var head := "<br>" + AnchorOpen(link);
    var video := if isVideo then VideoParagraph(videoLinkText) else "";
    var needle := LinkSpan(link);
    ContainsItself(needle);
    ContainsAppend(needle, needle, video);
    ContainsPrepend(head, Inner(link, title, None, isVideo, videoLinkText), needle);
    ContainsAppend(head + Inner(link, title, None, isVideo, videoLinkText), needle, Closing);
  }

  /** Outside the Twitter branch, a video embed ends with the paragraph that
      carries the video link text in italics, right before the closing anchor;
      without the flag the thumbnail or link comes right before it. */
  lemma VideoEmbed(link: string, title: string, image: Option<string>, videoLinkText: string)
    requires !(image.None? && IsTwitterLink(link))
    ensures var body := if image.Some? then ImageTag(image.value, title) else LinkSpan(link);
            && EndsWith(CreateEmbedMarkup(link, title, image, true, videoLinkText), VideoParagraph(videoLinkText) + Closing)
            && Contains(CreateEmbedMarkup(link, title, image, true, videoLinkText), Italic(videoLinkText))
            && EndsWith(CreateEmbedMarkup(link, title, image, false, videoLinkText), body + Closing)
  {
    var head := "<br>" + AnchorOpen(link);
    var body := if image.Some? then ImageTag(image.value, title) else LinkSpan(link);
    var paragraph := VideoParagraph(videoLinkText);
    Assoc(head, body, paragraph);
    EndsWithConcat(head + body, paragraph, Closing);
    Assoc(head, body, "");
    assert body + "" == body;
    assert head + body + "" == head + body;
    EndsWithConcat(head, body, Closing);

    var needle := Italic(videoLinkText);
    var open := "<p style='" + VideoStyle + "'>";
    ContainsItself(needle);
    ContainsPrepend(open, needle, needle);
    ContainsAppend(open + needle, needle, "</p><br>");
    ContainsPrepend(head + body, paragraph, needle);
    ContainsAppend(head + body + paragraph, needle, Closing);
  }
}
