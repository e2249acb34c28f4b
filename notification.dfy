/** The message the relay posts to Discord for one webhook request: the
    embed description (the report inline, or its summary and a link to the
    saved log) and the payload around it. */
module Notification {
  import opened Text
  import opened Summarizer
  import opened OutputFacts

  /** The fields the relay takes from the incoming request. Severity is
      declared but never filled in nor read. */
  datatype Request = Request(
    discordWebhook: string,
    messageContent: string,
    urlLogAccessible: string,
    severity: string,
    title: string)

  datatype Author = Author(name: string, iconUrl: string)
  datatype Footer = Footer(text: string)
  datatype Embed = Embed(author: Author, title: string, description: string, color: string, footer: Footer)
  datatype Payload = Payload(username: string, content: string, embeds: seq<Embed>)

  /** The inline threshold, compared with the report's UTF-8 byte length. */
  const InlineLimit := 4096
  /** Backup job titles contain this word; their reports are always summarised. */
  const BackupMarker := "vzdump"
  const EmbedColor := "15036416"
  const IconUrl := "https://pbs.proxmox.com/docs/_static/favicon.ico"
  const AuthorName := "Proxmox VE"
  const FooterText := "Ordis via pvetodiscord"
  const Username := "Ordis"
  const Fence := "```"
  const LinkText := " You can find the detailed log [here]("

  /** The report goes into the embed as it is: it is shorter than the limit
      in UTF-8 bytes and the title is not a backup job's. */
  predicate FitsInline(req: Request) {
    Utf8Length(req.messageContent) < InlineLimit && !Contains(req.title, BackupMarker)
  }

  /** The link to the saved log: the public base URL followed by the file
      name. */
  function LogLink(req: Request, fileName: string): string {
    req.urlLogAccessible + fileName
  }

  /** The embed description. `fileName` is the name the log was saved under. */
  function Description(req: Request, fileName: string): string {
    if FitsInline(req) then Fence + req.messageContent + Fence
    else
      var summary := Summary(req.messageContent);
      if Utf8Length(summary) > 1 then
        Fence + summary + Fence + LinkText + LogLink(req, fileName) + ")"
      else
        "You can find the detailed log [here](" + LogLink(req, fileName) + ") "
  }

  /** The Discord webhook payload: one embed under fixed branding. */
  function BuildPayload(req: Request, fileName: string): Payload {
    var author := Author(AuthorName, IconUrl);
    var footer := Footer(FooterText);
    var embed := Embed(author, req.title, Description(req, fileName), EmbedColor, footer);
    Payload(Username, "", [embed])
  }

  /** A report that fits is posted whole between code fences, and can be
      read back from the description. */
  lemma InlineDescription(req: Request, fileName: string)
    requires FitsInline(req)
    ensures Description(req, fileName) == Fence + req.messageContent + Fence
    ensures var d := Description(req, fileName);
      |d| == |req.messageContent| + 6 && d[3..|d| - 3] == req.messageContent
  {
    var d := Description(req, fileName);
    assert d == Fence + (req.messageContent + Fence);
    assert d[3..|d| - 3] == (req.messageContent + Fence)[..|req.messageContent|];
  }

  /** A report that does not fit is replaced by its summary, which always
      opens with the header row, followed by the link to the saved log;
      the branch without a summary is never taken. */
  lemma SummarisedDescription(req: Request, fileName: string)
    requires !FitsInline(req)
    ensures Description(req, fileName) ==
      Fence + Summary(req.messageContent) + Fence + LinkText + LogLink(req, fileName) + ")"
    ensures HasPrefix(Description(req, fileName), Fence + Header() + "\n")
  {
    SummaryStartsWithHeader(req.messageContent);
    FencedPrefix(Summary(req.messageContent), Header(), LogLink(req, fileName));
  }

  /** The first line of a summary stays right after the opening fence. */
  lemma FencedPrefix(summary: string, header: string, link: string)
    requires HasPrefix(summary, header + "\n")
    ensures HasPrefix(Fence + summary + Fence + LinkText + link + ")", Fence + header + "\n")
  {
    var d := Fence + summary + Fence + LinkText + link + ")";
    assert d == Fence + summary + (Fence + LinkText + link + ")");
    assert d[..|Fence + header + "\n"|] == Fence + (summary[..|header + "\n"|]);
  }

  /** Where the threshold lies in runes: a report of 4096 runes or more is
      always summarised, one of fewer than 1024 runes is inlined unless the
      title is a backup job's. */
  lemma InlineThreshold(req: Request)
    ensures |req.messageContent| >= InlineLimit ==> !FitsInline(req)
    ensures |req.messageContent| < InlineLimit / 4 && !Contains(req.title, BackupMarker) ==> FitsInline(req)
  {
  }

  /** A backup job's report is always summarised, however short. */
  lemma BackupIsSummarised(req: Request)
    requires Contains(req.title, BackupMarker)
    ensures !FitsInline(req)
  {
  }

  /** The payload: username "Ordis", no content, exactly one embed carrying
      the request's title, the description, the fixed colour, author and
      footer. */
  lemma PayloadShape(req: Request, fileName: string)
    ensures var p := BuildPayload(req, fileName);
      && p.username == Username && p.content == "" && |p.embeds| == 1
      && p.embeds[0].title == req.title
      && p.embeds[0].description == Description(req, fileName)
      && p.embeds[0].color == EmbedColor
      && p.embeds[0].author == Author(AuthorName, IconUrl)
      && p.embeds[0].footer == Footer(FooterText)
  {
  }

  /** The payload depends only on the report, the title, the base URL and
      the file name; the target webhook and the severity do not change it,
      and an inlined report does not depend on where the log went. */
  lemma PayloadInputs(r1: Request, r2: Request, f1: string, f2: string)
    requires r1.messageContent == r2.messageContent && r1.title == r2.title
    ensures LogLink(r1, f1) == LogLink(r2, f2) ==> BuildPayload(r1, f1) == BuildPayload(r2, f2)
    ensures FitsInline(r1) ==> BuildPayload(r1, f1) == BuildPayload(r2, f2)
  {
  }
}
