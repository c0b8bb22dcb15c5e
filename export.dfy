/**
 * What "Download HTML" writes and what the live preview shows: the `<li>`
 * markup for the two lists, the HTML document built from the previewed
 * record, and the file name derived from the previewed name.
 */
module Export {
  import opened Wrappers
  import opened Text
  import opened Parsing
  import opened Profile

  // ------------------------------------------------------------ list markup

  function ListItem(item: string): string
  {
    "<li>" + item + "</li>"
  }

  /**
   * `items.map(x => `<li>${x}</li>`).join('')`: one element per item, in order,
   * with nothing between them and the item text copied without escaping.
   */
  function ListItems(items: seq<string>): (r: string)
    ensures r == [] <==> items == []
    ensures |r| >= 9 * |items|
    ensures items != [] ==> r[..4] == "<li>"
  {
    if items == [] then "" else ListItem(items[0]) + ListItems(items[1..])
  }

  lemma {:induction false} ListItemsAppend(a: seq<string>, b: seq<string>)
    ensures ListItems(a + b) == ListItems(a) + ListItems(b)
  {
    if a != [] {
      var ab := a + b;
      assert ab != [] && ab[0] == a[0] && ab[1..] == a[1..] + b;
      ListItemsAppend(a[1..], b);
      calc {
        ListItems(ab);
        ListItem(a[0]) + ListItems(a[1..] + b);
        ListItem(a[0]) + (ListItems(a[1..]) + ListItems(b));
        ListItem(a[0]) + ListItems(a[1..]) + ListItems(b);
      }
    } else {
      assert a + b == b;
    }
  }

  /** Position of the first `c` in `s`, or `|s|` when there is none. */
  function IndexOf(s: string, c: char): (i: nat)
    ensures i <= |s|
    ensures i < |s| ==> s[i] == c
    ensures forall j :: 0 <= j < i ==> s[j] != c
  {
    if s == [] || s[0] == c then 0 else 1 + IndexOf(s[1..], c)
  }

  /**
   * Reads a run of `<li>…</li>` elements back into their texts, taking each
   * text up to the next `<`; `None` when the input is not such a run.
   */
  function ParseListItems(html: string): Option<seq<string>>
    decreases |html|
  {
    if html == [] then Some([])
    else if !("<li>" <= html) then None
    else
      var rest := html[4..];
      var j := IndexOf(rest, '<');
      if !("</li>" <= rest[j..]) then None
      else
        match ParseListItems(rest[j + 5..])
        case None => None
        case Some(tail) => Some([rest[..j]] + tail)
  }

  /**
   * When no item contains `<`, the markup can be read back into exactly the
   * items it was made from: one `<li>` element per item, in order.
   */
  lemma {:induction false} ListItemsRoundTrip(items: seq<string>)
    requires forall i :: 0 <= i < |items| ==> '<' !in items[i]
    ensures ParseListItems(ListItems(items)) == Some(items)
  {
    if items != [] {
      ListItemsRoundTrip(items[1..]);
      ParseListItemsStep(items[0], ListItems(items[1..]));
      assert [items[0]] + items[1..] == items;
    }
  }

  /** One element read back: its text is everything up to the closing tag. */
  lemma ParseListItemsStep(item: string, tail: string)
    requires '<' !in item
    ensures ParseListItems(ListItem(item) + tail)
         == match ParseListItems(tail) case None => None case Some(rest) => Some([item] + rest)
  {
    var html := ListItem(item) + tail;
    var rest := html[4..];
    assert html == "<li>" + (item + "</li>" + tail);
    assert rest == item + ("</li>" + tail);
    assert rest[|item|] == '<';
    assert IndexOf(rest, '<') == |item|;
    assert rest[|item|..] == "</li>" + tail;
    assert rest[..|item|] == item;
    assert rest[|item| + 5..] == tail;
  }

  /**
   * Item text is not escaped: an item that itself holds `</li><li>` produces
   * the same markup as two separate items.
   */
  lemma MarkupNotEscaped()
    ensures ListItems(["a</li><li>b"]) == ListItems(["a", "b"])
  {
  }

  /** A string without `c` splits into pieces without `c`. */
  lemma {:induction false} SplitAvoids(s: string, sep: char, c: char)
    requires c !in s
    ensures forall i :: 0 <= i < |Split(s, sep)| ==> c !in Split(s, sep)[i]
  {
    if s != [] {
      SplitAvoids(s[1..], sep, c);
    }
  }

  /** The `<li>` markup of a list field: its parsed items, one element each. */
  function ListMarkup(field: string, sep: char): (r: string)
    ensures |r| >= 9 * (Count(field, sep) + 1)
    ensures r[..4] == "<li>"
  {
    ListItems(ParseList(field, sep))
  }

  /**
   * For a field without `<`, the markup holds exactly one `<li>` element per
   * separator-delimited piece (k separators give k + 1 elements), and reading
   * it back gives the trimmed pieces in order.
   */
  lemma ListMarkupItems(field: string, sep: char)
    requires '<' !in field
    ensures var items := ParseListItems(ListMarkup(field, sep));
      items == Some(ParseList(field, sep)) && |items.value| == Count(field, sep) + 1
  {
    var pieces := Split(field, sep);
    var items := ParseList(field, sep);
    SplitAvoids(field, sep, '<');
    forall i | 0 <= i < |items| ensures '<' !in items[i] {
      TrimKeepsCharacters(pieces[i]);
    }
    ListItemsRoundTrip(items);
  }

  // ----------------------------------------------------------- the document

  const DocumentHead :=
    "\n"
    + "      <!DOCTYPE html>\n"
    + "      <html lang=\"en\">\n"
    + "      <head>\n"
    + "        <meta charset=\"UTF-8\">\n"
    + "        <meta name=\"viewport\" content=\"width=device-width, initial-scale=1.0\">\n"
    + "        <title>Portfolio - "

  const AfterTitle :=
    "</title>\n"
    + "        <style>\n"
    + "          body { font-family: Arial, sans-serif; margin: 20px; }\n"
    + "          .profile-section { padding: 20px; border-bottom: 1px solid #eee; }\n"
    + "          .skills-section, .projects-section { padding: 20px; }\n"
    + "          /* Add more styling here */\n"
    + "        </style>\n"
    + "      </head>\n"
    + "      <body>\n"
    + "        <div class=\"profile-section\">\n"
    + "          <h1>"

  const AfterName := "</h1>\n          <h2>"
  const AfterOccupation := "</h2>\n          <p>"
  const AfterBio := "</p>\n          <p>Contact: "

  const AfterContact :=
    "</p>\n"
    + "        </div>\n"
    + "        <div class=\"skills-section\">\n"
    + "          <h3>Skills</h3>\n"
    + "          <ul>\n"
    + "            "

  const AfterSkills :=
    "\n"
    + "          </ul>\n"
    + "        </div>\n"
    + "        <div class=\"projects-section\">\n"
    + "          <h3>Projects</h3>\n"
    + "          <ul>\n"
    + "            "

  const DocumentTail :=
    "\n"
    + "          </ul>\n"
    + "        </div>\n"
    + "      </body>\n"
    + "      </html>\n"
    + "    "

  /** The fixed text of the page: the pieces around the interpolated values, in order. */
  datatype PageText = PageText(
    head: string,
    afterTitle: string,
    afterName: string,
    afterOccupation: string,
    afterBio: string,
    afterContact: string,
    afterSkills: string,
    tail: string)

  const Template :=
    PageText(DocumentHead, AfterTitle, AfterName, AfterOccupation, AfterBio, AfterContact, AfterSkills, DocumentTail)

  /** Everything before the skills list: head, styles and the profile section. */
  function ProfileSection(t: PageText, p: FormData): string
  {
    t.head + p.name + t.afterTitle + p.name + t.afterName + p.occupation
      + t.afterOccupation + p.shortBio + t.afterBio + p.contactInformation + t.afterContact
  }

  /** The record's values with the fixed text `t` around them. */
  function Page(t: PageText, p: FormData): string
  {
    ProfileSection(t, p)
      + ListMarkup(p.skills, ',')
      + t.afterSkills
      + ListMarkup(p.projectDescriptions, '\n')
      + t.tail
  }

  /**
   * The downloaded page. Field values are pasted in raw; the age field is not
   * part of it.
   */
  function HtmlDocument(p: FormData): string
  {
    Page(Template, p)
  }

  /**
   * The page starts with the profile section directly followed by the skills
   * list, and ends with the projects list directly followed by the fixed tail.
   */
  lemma PageOrder(t: PageText, p: FormData)
    ensures ProfileSection(t, p) + ListMarkup(p.skills, ',') <= Page(t, p)
    ensures var r, back := Page(t, p), ListMarkup(p.projectDescriptions, '\n') + t.tail;
      |back| <= |r| && r[|r| - |back|..] == back
  {
    Affixes(ProfileSection(t, p) + ListMarkup(p.skills, ','), t.afterSkills,
            ListMarkup(p.projectDescriptions, '\n') + t.tail);
  }

  /** `a` is a prefix and `c` a suffix of `a + b + c`. */
  lemma Affixes(a: string, b: string, c: string)
    ensures a <= a + b + c
    ensures (a + b + c)[|a + b|..] == c
  {
    assert (a + b + c)[..|a|] == a;
  }

  /**
   * The document depends on the six exported fields and on nothing else:
   * records that agree on them, whatever their ages, give the same page.
   */
  lemma DocumentIgnoresAge(p: FormData, q: FormData)
    requires p.name == q.name && p.occupation == q.occupation && p.shortBio == q.shortBio
    requires p.contactInformation == q.contactInformation
    requires p.skills == q.skills && p.projectDescriptions == q.projectDescriptions
    ensures HtmlDocument(p) == HtmlDocument(q)
  {
  }

  // ------------------------------------------------------------- file name

  /** `name.replace(/\s+/g, '-').toLowerCase()`: no whitespace and no longer than the name. */
  function Slug(name: string): (r: string)
    ensures NoWhitespace(r)
    ensures |r| <= |name|
  {
    ToLowerFacts(CollapseWhitespace(name));
    ToLower(CollapseWhitespace(name))
  }

  /** `portfolio-${slug}.html` */
  function DownloadFilename(name: string): (f: string)
    ensures |f| == |Slug(name)| + 15
    ensures f[..10] == "portfolio-" && f[10..|f| - 5] == Slug(name) && f[|f| - 5..] == ".html"
  {
    "portfolio-" + Slug(name) + ".html"
  }

  lemma NoWhitespaceConcat(a: string, b: string)
    requires NoWhitespace(a) && NoWhitespace(b)
    ensures NoWhitespace(a + b)
  {
    forall i | 0 <= i < |a + b| ensures !IsWhitespace((a + b)[i]) {
      if i < |a| { assert (a + b)[i] == a[i]; } else { assert (a + b)[i] == b[i - |a|]; }
    }
  }

  /** The file name keeps its fixed prefix and suffix and holds no whitespace, whatever the name. */
  lemma FilenameShape(name: string)
    ensures var f := DownloadFilename(name);
      NoWhitespace(f) && |f| >= 15 && f[..10] == "portfolio-" && f[|f| - 5..] == ".html"
  {
    var prefix, slug, suffix := "portfolio-", Slug(name), ".html";
    assert NoWhitespace(prefix) by {
      forall i | 0 <= i < |prefix| ensures !IsWhitespace(prefix[i]) { }
    }
    assert NoWhitespace(suffix) by {
      forall i | 0 <= i < |suffix| ensures !IsWhitespace(suffix[i]) { }
    }
    NoWhitespaceConcat(prefix, slug);
    NoWhitespaceConcat(prefix + slug, suffix);
    var f := prefix + slug + suffix;
    assert f[..10] == prefix;
    assert f[|f| - 5..] == suffix;
  }

  /**
   * Each maximal whitespace run in the name becomes a single `-`; the text on
   * either side is only lower-cased.
   */
  lemma SlugRun(before: string, run: string, after: string)
    requires before == [] || !IsWhitespace(before[|before| - 1])
    requires run != [] && AllWhitespace(run)
    requires after == [] || !IsWhitespace(after[0])
    ensures Slug(before + run + after) == Slug(before) + "-" + Slug(after)
  {
    CollapseRun(before, run, after);
    var a, b := CollapseWhitespace(before), CollapseWhitespace(after);
    ToLowerAppend(a + "-", b);
    ToLowerAppend(a, "-");
    assert ToLower("-") == "-";
  }

  /** A name without dashes gives a slug with no `--`: consecutive blanks leave a single dash. */
  lemma SlugNoDoubleDash(name: string)
    requires '-' !in name
    ensures NoDoubleDash(Slug(name))
  {
    CollapseNoDoubleDash(name);
    var c := CollapseWhitespace(name);
    var slug := Slug(name);
    assert slug == ToLower(c);
    forall i | 0 <= i < |slug| - 1 ensures !(slug[i] == '-' && slug[i + 1] == '-') {
      LowerCharFacts(c[i]);
      LowerCharFacts(c[i + 1]);
      assert slug[i] == LowerChar(c[i]) && slug[i + 1] == LowerChar(c[i + 1]);
      assert !(c[i] == '-' && c[i + 1] == '-');
    }
  }

  // ----------------------------------------------------------- live preview

  /** What the preview card shows. */
  datatype PreviewView = PreviewView(
    name: string,
    occupation: string,
    shortBio: string,
    contact: string,
    skills: seq<string>,
    projects: seq<string>)

  /**
   * The preview of a record as the JSX builds it: empty text fields fall back
   * to placeholders, and the two lists are parsed exactly as for the download,
   * so the lists the JSX builds hold the same items as the file. What React
   * then puts on screen is not modelled.
   */
  function Preview(p: FormData): (v: PreviewView)
    ensures v.name != "" && v.occupation != "" && v.shortBio != "" && v.contact != ""
    ensures p.name != "" ==> v.name == p.name
    ensures p.occupation != "" ==> v.occupation == p.occupation
    ensures p.shortBio != "" ==> v.shortBio == p.shortBio
    ensures p.contactInformation != "" ==> v.contact == p.contactInformation
    ensures p.name == "" ==> v.name == "Your Name"
    ensures p.occupation == "" ==> v.occupation == "Your Occupation"
    ensures p.shortBio == "" ==> v.shortBio == "Your Bio"
    ensures p.contactInformation == "" ==> v.contact == "Your Contact Info"
    ensures v.skills == ParseSkills(p.skills)
    ensures v.projects == ParseProjectDescriptions(p.projectDescriptions)
    ensures |v.skills| == Count(p.skills, ',') + 1
    ensures |v.projects| == Count(p.projectDescriptions, '\n') + 1
  {
    PreviewView(
      if p.name == "" then "Your Name" else p.name,
      if p.occupation == "" then "Your Occupation" else p.occupation,
      if p.shortBio == "" then "Your Bio" else p.shortBio,
      if p.contactInformation == "" then "Your Contact Info" else p.contactInformation,
      ParseSkills(p.skills),
      ParseProjectDescriptions(p.projectDescriptions))
  }
}
