/** What ffprobe's three writers deliver for a whole section tree, from the calls on the writer context to the
    document read back by a parser of the format. */
module Documents {
  import opened Common
  import opened Tokens
  import opened Writers
  import opened Selection
  import WriterContexts
  import JsonReader
  import XmlReader
  import XmlSyntax
  import CsvReader

  /** The tree fits the writer's section stack. */
  predicate Fits(p: Priv, t: Tree) { WriterContexts.Writable(p, None, t, SECTION_MAX_NB_LEVELS) }

  /** The calls for a tree on a new context. */
  method PrintDocument(p: Priv, t: Tree) returns (text: string)
    requires Fits(p, t)
    ensures text == RenderAll(StyleOf(p), Write(Start(p), t).1)
  {
    var w := new WriterContexts.WriterContext(p);
    w.WriteTree(t);
    text := w.out;
    Writers.WriteRestores(Start(p), t);
    assert [] + Write(Start(p), t).1 == Write(Start(p), t).1;
  }

  method PrintJson(t: Tree, compact: bool) returns (text: string)
    requires Fits(JsonPriv(0, compact), t) && !t.section.isArray
    requires JsonReader.RegularItems(t.section, Selected(false, t).items)
    ensures var kept := Selected(false, t);
      JsonReader.ParseJson(text) ==
        if JsonReader.Readable(kept) then Some(JsonReader.JObject(JsonReader.Members(kept.section, kept.items)))
        else None
  {
    text := PrintDocument(JsonPriv(0, compact), t);
    JsonReader.JsonRoundTrip(t, compact);
  }

  method PrintXml(t: Tree, qualified: bool) returns (text: string)
    requires Fits(XmlPriv(0, false, qualified), t) && XmlReader.Named(Selected(false, t))
    ensures var kept := Selected(false, t);
      var good := XmlReader.GoodItems(kept.section, kept.items, false);
      && XmlSyntax.ParseXml(text) == (if good then Some(XmlReader.Document(kept, qualified, true)) else None)
      && (XmlSyntax.ParseXml(text) == Some(XmlReader.Document(kept, qualified, false)) <==>
            good && XmlReader.PlainItems(kept.section, kept.items))
  {
    text := PrintDocument(XmlPriv(0, false, qualified), t);
    XmlReader.ReadsOutput(t, qualified);
    XmlReader.XmlRoundTrip(t, qualified);
  }

  method PrintCsv(t: Tree, sep: char) returns (text: string)
    requires Fits(CsvPriv(sep, true), t) && CsvReader.SepOk(sep) && CsvReader.Flat(Selected(true, t))
    ensures CsvReader.ParseCsv(text, sep) == Some(CsvReader.Rows(Selected(true, t)))
  {
    text := PrintDocument(CsvPriv(sep, true), t);
    CsvReader.CsvRoundTrip(t, sep);
  }
}
