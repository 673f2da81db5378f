/** A model of the server's HTML template renderer `tmpl`: a complete HTML5
    document assembled from fixed literal fragments and the caller's values,
    all inserted verbatim. The serialiser of the initial store (`JSON.stringify`
    in the server) is a parameter of every member, so nothing is assumed about
    it, and so is the development/production flag read from the environment.

    The layout is first stated for any fixed markup (`Page`) and its
    properties proved there; `Tmpl` is `Page` with the template's own text. */
module Template {
  import opened Fragments

  /** The record of template parameters; `initialStore` may be any value. */
  datatype TmplOptions<T> = TmplOptions(
    title: string,
    styles: string,
    content: string,
    initialStore: T,
    cssHash: string,
    scripts: string)

  /** The fixed text of a page: the markers directly around the inserted
      values, the markup between them, the line break and indentation that
      separates the trailing values, and the two framework script pairs. */
  datatype Markup = Markup(
    doctype: string,
    headMeta: string,
    titleOpen: string,
    titleClose: string,
    indent: string,
    beforeStore: string,
    storeOpen: string,
    storeClose: string,
    beforeApp: string,
    appOpen: string,
    appClose: string,
    tail: string,
    devScripts: string,
    prodScripts: string)

  /** The template's own text. */
  function SourceMarkup(): (m: Markup)
    ensures m.devScripts != m.prodScripts
  {
    var m := Markup(
      "<!DOCTYPE html>",
      "\n      " + "<html lang=\"en\">"
      + "\n      " + "<head>"
      + "\n        " + "<meta charset=\"UTF-8\">"
      + "\n        " + "<meta name=\"viewport\" " + "content=\"width=device-width, " + "initial-scale=1.0\">"
      + "\n        " + "<meta http-equiv=" + "\"X-UA-Compatible\" " + "content=\"ie=edge\">"
      + "\n        ",
      "<title>",
      "</title>",
      "\n        ",
      "\n        " + "<link href=\"https://" + "cdn.bootcss.com/" + "normalize/8.0.1/" + "normalize.css\" " + "rel=\"stylesheet\">"
      + "\n        " + "<script>"
      + "\n          ",
      "window.initialState = ",
      ";",
      "\n        " + "</script>"
      + "\n        " + "</head>"
      + "\n        " + "<body>"
      + "\n        ",
      "<div id=\"app\">",
      "</div>",
      "\n      " + "</body>"
      + "\n    " + "</html>",
      "<script src=\"https://" + "cdn.bootcss.com/" + "react/16.2.0/umd/" + "react.development.js\">" + "</script>"
      + "<script src=\"https://" + "cdn.bootcss.com/" + "react-dom/16.3.0/umd/" + "react-dom.development.js\">" + "</script>",
      "<script src=\"https://" + "cdn.bootcss.com/" + "react/16.2.0/umd/" + "react.production.min.js\">" + "</script>"
      + "<script src=\"https://" + "cdn.bootcss.com/" + "react-dom/16.3.0/umd/" + "react-dom.production.min.js\">" + "</script>");
    // The URLs of the react bundle part at "development" against "production".
    assert m.devScripts[60] == 'd' && m.prodScripts[60] == 'p';
    m
  }

  /** The eight fixed fragments of a page, in order. */
  function Literals(m: Markup): (l: seq<string>)
    ensures |l| == 8
  {
    [m.doctype + m.headMeta + m.titleOpen, m.titleClose + m.indent, m.beforeStore + m.storeOpen,
     m.storeClose + m.beforeApp + m.appOpen, m.appClose + m.indent, m.indent, m.indent, m.tail]
  }

  /** The framework script pair for the mode. When the two pairs differ, it is
      exactly one of them, the development one precisely in development mode. */
  function ModeScripts(m: Markup, isDev: bool): (s: string)
    ensures m.devScripts != m.prodScripts ==> ((s == m.devScripts) <==> isDev)
    ensures m.devScripts != m.prodScripts ==> ((s == m.prodScripts) <==> !isDev)
  {
    if isDev then m.devScripts else m.prodScripts
  }

  /** The values inserted into a page, in the order they appear. */
  function Holes<T>(m: Markup, options: TmplOptions<T>, isDev: bool, serialize: T -> string): (h: seq<string>)
    ensures |h| == 7
  {
    [options.title, options.styles, serialize(options.initialStore), options.content,
     ModeScripts(m, isDev), options.scripts, options.cssHash]
  }

  /** A page over the fixed text `m`: the template literal written out,
      with its eight literal fragments in parentheses. */
  function Page<T>(m: Markup, options: TmplOptions<T>, isDev: bool, serialize: T -> string): string
  {
    (m.doctype + m.headMeta + m.titleOpen) + options.title + (m.titleClose + m.indent) + options.styles
    + (m.beforeStore + m.storeOpen) + serialize(options.initialStore) + (m.storeClose + m.beforeApp + m.appOpen)
    + options.content + (m.appClose + m.indent) + ModeScripts(m, isDev) + m.indent
    + options.scripts + m.indent + options.cssHash + m.tail
  }

  /** The rendered document. It is defined for every input: there is no
      failure path. */
  function Tmpl<T>(options: TmplOptions<T>, isDev: bool, serialize: T -> string): string
  {
    Page(SourceMarkup(), options, isDev, serialize)
  }

  /** A page is the eight fixed literals with the seven values inserted
      between them in the order title, styles, serialised store, content,
      framework scripts, scripts, CSS hash; the literals depend on the fixed
      text alone. */
  lemma PageLayout<T>(m: Markup, options: TmplOptions<T>, isDev: bool, serialize: T -> string)
    ensures Page(m, options, isDev, serialize) == Render(Literals(m), Holes(m, options, isDev, serialize))
  {
    RenderSeven(Literals(m), Holes(m, options, isDev, serialize));
  }

  /** Nothing is escaped, added or dropped: the length of a page is the length
      of its fixed literals plus the lengths of the inserted values. */
  lemma PageLength<T>(m: Markup, options: TmplOptions<T>, isDev: bool, serialize: T -> string)
    ensures |Page(m, options, isDev, serialize)|
         == TotalLength(Literals(m)) + |options.title| + |options.styles| + |serialize(options.initialStore)|
          + |options.content| + |ModeScripts(m, isDev)| + |options.scripts| + |options.cssHash|
  {
    var h := Holes(m, options, isDev, serialize);
    PageLayout(m, options, isDev, serialize);
    RenderLength(Literals(m), h);
    assert TotalLength(h[6..]) == |h[6]| + TotalLength(h[7..]);
    assert TotalLength(h[5..]) == |h[5]| + TotalLength(h[6..]);
    assert TotalLength(h[4..]) == |h[4]| + TotalLength(h[5..]);
    assert TotalLength(h[3..]) == |h[3]| + TotalLength(h[4..]);
    assert TotalLength(h[2..]) == |h[2]| + TotalLength(h[3..]);
    assert TotalLength(h[1..]) == |h[1]| + TotalLength(h[2..]);
  }

  /** Every value is inserted verbatim at its offset, and consecutive values
      are separated by exactly the fixed literal between them. */
  lemma PageOrder<T>(m: Markup, options: TmplOptions<T>, isDev: bool, serialize: T -> string)
    ensures forall k :: 0 <= k < 7 ==>
      OccursAt(Page(m, options, isDev, serialize), Holes(m, options, isDev, serialize)[k],
               HoleOffset(Literals(m), Holes(m, options, isDev, serialize), k))
    ensures forall k :: 0 <= k < 6 ==>
      HoleOffset(Literals(m), Holes(m, options, isDev, serialize), k + 1)
      == HoleOffset(Literals(m), Holes(m, options, isDev, serialize), k)
         + |Holes(m, options, isDev, serialize)[k]| + |Literals(m)[k + 1]|
    ensures forall k :: 0 <= k < 6 ==>
      OccursAt(Page(m, options, isDev, serialize),
               Holes(m, options, isDev, serialize)[k] + Literals(m)[k + 1] + Holes(m, options, isDev, serialize)[k + 1],
               HoleOffset(Literals(m), Holes(m, options, isDev, serialize), k))
  {
    var l, h := Literals(m), Holes(m, options, isDev, serialize);
    PageLayout(m, options, isDev, serialize);
    forall k | 0 <= k < 7
      ensures OccursAt(Render(l, h), h[k], HoleOffset(l, h, k))
    {
      HoleAt(l, h, k);
    }
    forall k | 0 <= k < 6
      ensures HoleOffset(l, h, k + 1) == HoleOffset(l, h, k) + |h[k]| + |l[k + 1]|
    {
      HoleOffsetNext(l, h, k);
    }
    forall k | 0 <= k < 6
      ensures OccursAt(Render(l, h), h[k] + l[k + 1] + h[k + 1], HoleOffset(l, h, k))
    {
      HoleGap(l, h, k);
    }
  }

  /** A page starts with the doctype declaration. */
  lemma PageDoctype<T>(m: Markup, options: TmplOptions<T>, isDev: bool, serialize: T -> string)
    ensures OccursAt(Page(m, options, isDev, serialize), m.doctype, 0)
  {
  }

  /** On a page the title sits verbatim inside the title element. */
  lemma PageTitle<T>(m: Markup, options: TmplOptions<T>, isDev: bool, serialize: T -> string)
    ensures OccursAt(Page(m, options, isDev, serialize), m.titleOpen + options.title + m.titleClose, |m.doctype + m.headMeta|)
  {
  }

  /** On a page the serialised store is assigned to `window.initialState`
      verbatim. */
  lemma PageStore<T>(m: Markup, options: TmplOptions<T>, isDev: bool, serialize: T -> string)
    ensures OccursAt(Page(m, options, isDev, serialize), m.storeOpen + serialize(options.initialStore) + m.storeClose,
                     HoleOffset(Literals(m), Holes(m, options, isDev, serialize), 2) - |m.storeOpen|)
  {
    PageLayout(m, options, isDev, serialize);
    FramedHole(Literals(m), Holes(m, options, isDev, serialize), 2, m.beforeStore, m.storeOpen, m.storeClose, m.beforeApp + m.appOpen);
  }

  /** On a page the pre-rendered content sits verbatim inside the mount
      element. */
  lemma PageApp<T>(m: Markup, options: TmplOptions<T>, isDev: bool, serialize: T -> string)
    ensures OccursAt(Page(m, options, isDev, serialize), m.appOpen + options.content + m.appClose,
                     HoleOffset(Literals(m), Holes(m, options, isDev, serialize), 3) - |m.appOpen|)
  {
    PageLayout(m, options, isDev, serialize);
    FramedHole(Literals(m), Holes(m, options, isDev, serialize), 3, m.storeClose + m.beforeApp, m.appOpen, m.appClose, m.indent);
  }

  // The template's own properties.

  /** The fixed literals of a page hold each piece of fixed text once, and
      the indentation four times. */
  lemma LiteralsLength(m: Markup)
    ensures TotalLength(Literals(m))
         == |m.doctype| + |m.headMeta| + |m.titleOpen| + |m.titleClose| + 4 * |m.indent| + |m.beforeStore|
          + |m.storeOpen| + |m.storeClose| + |m.beforeApp| + |m.appOpen| + |m.appClose| + |m.tail|
  {
    var l := Literals(m);
    assert TotalLength(l[7..]) == |l[7]| + TotalLength(l[8..]);
    assert TotalLength(l[6..]) == |l[6]| + TotalLength(l[7..]);
    assert TotalLength(l[5..]) == |l[5]| + TotalLength(l[6..]);
    assert TotalLength(l[4..]) == |l[4]| + TotalLength(l[5..]);
    assert TotalLength(l[3..]) == |l[3]| + TotalLength(l[4..]);
    assert TotalLength(l[2..]) == |l[2]| + TotalLength(l[3..]);
    assert TotalLength(l[1..]) == |l[1]| + TotalLength(l[2..]);
  }

  /** The template's fixed text is 531 characters long. */
  lemma SourceLength()
    ensures TotalLength(Literals(SourceMarkup())) == 531
  {
    var m := SourceMarkup();
    LiteralsLength(m);
    assert |m.headMeta| == 217 && |m.beforeStore| == 121 && |m.beforeApp| == 58 && |m.tail| == 26;
  }

  /** The length of the document is 531 fixed characters plus the lengths of
      the inserted values: nothing is escaped. */
  lemma TmplLength<T>(options: TmplOptions<T>, isDev: bool, serialize: T -> string)
    ensures |Tmpl(options, isDev, serialize)|
         == 531 + |options.title| + |options.styles|
          + |serialize(options.initialStore)| + |options.content| + |ModeScripts(SourceMarkup(), isDev)|
          + |options.scripts| + |options.cssHash|
  {
    PageLength(SourceMarkup(), options, isDev, serialize);
    SourceLength();
  }

  /** The document is the template's fixed literals with the values inserted
      between them, in order, each verbatim at its offset. */
  lemma TmplOrder<T>(options: TmplOptions<T>, isDev: bool, serialize: T -> string)
    ensures Tmpl(options, isDev, serialize) == Render(Literals(SourceMarkup()), Holes(SourceMarkup(), options, isDev, serialize))
    ensures forall k :: 0 <= k < 7 ==>
      OccursAt(Tmpl(options, isDev, serialize), Holes(SourceMarkup(), options, isDev, serialize)[k],
               HoleOffset(Literals(SourceMarkup()), Holes(SourceMarkup(), options, isDev, serialize), k))
    ensures forall k :: 0 <= k < 6 ==>
      HoleOffset(Literals(SourceMarkup()), Holes(SourceMarkup(), options, isDev, serialize), k + 1)
      == HoleOffset(Literals(SourceMarkup()), Holes(SourceMarkup(), options, isDev, serialize), k)
         + |Holes(SourceMarkup(), options, isDev, serialize)[k]| + |Literals(SourceMarkup())[k + 1]|
    ensures forall k :: 0 <= k < 6 ==>
      OccursAt(Tmpl(options, isDev, serialize),
               Holes(SourceMarkup(), options, isDev, serialize)[k] + Literals(SourceMarkup())[k + 1]
               + Holes(SourceMarkup(), options, isDev, serialize)[k + 1],
               HoleOffset(Literals(SourceMarkup()), Holes(SourceMarkup(), options, isDev, serialize), k))
  {
    PageLayout(SourceMarkup(), options, isDev, serialize);
    PageOrder(SourceMarkup(), options, isDev, serialize);
  }

  /** The document starts with `<!DOCTYPE html>`. */
  lemma TmplDoctype<T>(options: TmplOptions<T>, isDev: bool, serialize: T -> string)
    ensures OccursAt(Tmpl(options, isDev, serialize), "<!DOCTYPE html>", 0)
  {
    PageDoctype(SourceMarkup(), options, isDev, serialize);
  }

  /** The document contains `<title>`, the title and `</title>`. */
  lemma TmplTitle<T>(options: TmplOptions<T>, isDev: bool, serialize: T -> string)
    ensures Contains(Tmpl(options, isDev, serialize), "<title>" + options.title + "</title>")
  {
    PageTitle(SourceMarkup(), options, isDev, serialize);
  }

  /** The document contains `window.initialState = `, the serialised store and
      `;`. The store is not escaped, so a `</script>` inside it ends the
      bootstrap script early. */
  lemma TmplStore<T>(options: TmplOptions<T>, isDev: bool, serialize: T -> string)
    ensures Contains(Tmpl(options, isDev, serialize), "window.initialState = " + serialize(options.initialStore) + ";")
  {
    PageStore(SourceMarkup(), options, isDev, serialize);
  }

  /** The document contains `<div id="app">`, the content and `</div>`. */
  lemma TmplApp<T>(options: TmplOptions<T>, isDev: bool, serialize: T -> string)
    ensures Contains(Tmpl(options, isDev, serialize), "<div id=\"app\">" + options.content + "</div>")
  {
    PageApp(SourceMarkup(), options, isDev, serialize);
  }

  /** The framework slot, right after the mount element, holds the development
      pair in development mode and the production pair otherwise; the two
      pairs differ. */
  lemma TmplFramework<T>(options: TmplOptions<T>, isDev: bool, serialize: T -> string)
    ensures SourceMarkup().devScripts != SourceMarkup().prodScripts
    ensures OccursAt(Tmpl(options, isDev, serialize), ModeScripts(SourceMarkup(), isDev),
                     HoleOffset(Literals(SourceMarkup()), Holes(SourceMarkup(), options, isDev, serialize), 4))
    ensures (ModeScripts(SourceMarkup(), isDev) == SourceMarkup().devScripts) <==> isDev
    ensures (ModeScripts(SourceMarkup(), isDev) == SourceMarkup().prodScripts) <==> !isDev
  {
    PageOrder(SourceMarkup(), options, isDev, serialize);
  }

  /** Values are not escaped, so a parameter can carry the other mode's
      framework pair: the mode decides only what fills the framework slot. */
  lemma TmplBothPairs<T>(options: TmplOptions<T>, serialize: T -> string)
    requires options.title == SourceMarkup().prodScripts
    ensures Contains(Tmpl(options, true, serialize), SourceMarkup().devScripts)
    ensures Contains(Tmpl(options, true, serialize), SourceMarkup().prodScripts)
  {
    var m := SourceMarkup();
    var html, h := Tmpl(options, true, serialize), Holes(m, options, true, serialize);
    PageOrder(m, options, true, serialize);
    assert OccursAt(html, h[0], HoleOffset(Literals(m), h, 0));
    assert OccursAt(html, h[4], HoleOffset(Literals(m), h, 4));
  }
}
