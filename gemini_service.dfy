/**
 * The two requests sent to the generative-text service and the reading of
 * its replies.
 *
 * The service itself is a parameter: a function from the request to the
 * reply it produces. A reply is either a transport failure (anything the SDK
 * call throws) or an answer with its text and what `JSON.parse` makes of it
 * (`None` when parsing throws). A missing `text` is modelled as empty text.
 */
module GeminiService {
  import opened Types
  import opened Text

  const GenerateFailure: string := "Falha ao gerar a notícia. Verifique sua conexão ou tente novamente."
  const OptimizeFailure: string := "Falha ao otimizar a manchete."

  // ---- response schemas ----

  datatype FieldType = StringField | StringListField

  datatype Schema = ObjectSchema(properties: seq<(string, FieldType)>, required: seq<string>)

  const NewsSchema: Schema := ObjectSchema(
    [("manchete", StringField), ("subtitulo", StringField), ("lead", StringField),
     ("corpo", StringListField), ("contexto", StringField), ("desdobramento", StringField)],
    ["manchete", "subtitulo", "lead", "corpo", "contexto", "desdobramento"])

  const HeadlineSchema: Schema := ObjectSchema(
    [("newHeadline", StringField)],
    ["newHeadline"])

  /** The names of a schema's properties, in order. */
  function PropertyNames(properties: seq<(string, FieldType)>): (names: seq<string>)
    ensures |names| == |properties|
    ensures forall i :: 0 <= i < |properties| ==> names[i] == properties[i].0
  {
    if properties == [] then [] else [properties[0].0] + PropertyNames(properties[1..])
  }

  /** A schema that lists every one of its properties as required, in order. */
  predicate RequiresEveryProperty(s: Schema) {
    s.required == PropertyNames(s.properties)
  }

  /** Both schemas require every field they declare; the article has six, the headline one. */
  lemma SchemasRequireAllFields()
    ensures RequiresEveryProperty(NewsSchema) && |NewsSchema.required| == 6
    ensures RequiresEveryProperty(HeadlineSchema) && HeadlineSchema.required == ["newHeadline"]
    ensures NewsSchema.properties[3] == ("corpo", StringListField)
    ensures forall i :: 0 <= i < 6 && i != 3 ==> NewsSchema.properties[i].1 == StringField
  {
    var names := PropertyNames(NewsSchema.properties);
    assert names == NewsSchema.required by {
      assert |names| == 6;
      forall i | 0 <= i < 6 ensures names[i] == NewsSchema.required[i] {
      }
    }
    assert PropertyNames(HeadlineSchema.properties) == ["newHeadline"];
  }

  // ---- what the try block can throw, and the catch that rewraps it ----

  datatype Reply<T> = TransportFailure | Answer(text: string, parsed: Option<T>)

  /** The error thrown inside the `try`: the SDK's, the empty-text check, or `JSON.parse`'s. */
  datatype Fault = ServiceFault | EmptyReply | Unparsable

  /** The body of the `try` after the call: reject empty text, then parse. */
  function ReadReply<T>(reply: Reply<T>): (r: Result<T, Fault>)
    ensures reply.TransportFailure? ==> r == Err(ServiceFault)
    ensures reply.Answer? && reply.text == "" ==> r == Err(EmptyReply)
    ensures r.Ok? <==> reply.Answer? && reply.text != "" && reply.parsed.Some?
    ensures r.Ok? ==> r.value == reply.parsed.value
  {
    match reply
    case TransportFailure => Err(ServiceFault)
    case Answer(text, parsed) =>
      if text == "" then Err(EmptyReply)
      else if parsed.None? then Err(Unparsable)
      else Ok(parsed.value)
  }

  /** The `catch`: whatever was thrown, one fixed message is thrown instead. */
  function Rewrap<T>(r: Result<T, Fault>, message: string): (w: Result<T, string>)
    ensures w.Ok? <==> r.Ok?
    ensures w.Ok? ==> w.value == r.value
    ensures w.Err? ==> w.error == message
  {
    match r
    case Ok(v) => Ok(v)
    case Err(_) => Err(message)
  }

  // ---- article generation ----

  const InstructionHead: string :=
    "\n    Você é um jornalista profissional e redator digital especializado em notícias atuais.\n    \n    TEMA/CATEGORIA: "

  const InstructionRules: string :=
    "\n    \n    TAREFA:\n"
    + "    Crie uma notícia ORIGINAL, clara e informativa, com linguagem jornalística neutra e confiável.\n"
    + "    Analise os FATOS fornecidos em texto e, se houver arquivos anexados (Imagens ou PDFs), extraia informações relevantes deles para compor a matéria.\n"
    + "    \n    REGRAS:\n"
    + "    - Linguagem clara e objetiva\n"
    + "    - Sem opinião pessoal\n"
    + "    - Português do Brasil\n"
    + "    - Conteúdo 100% original\n"
    + "    - Estilo portal de notícias moderno\n"
    + "    - Não mencionar fontes ('segundo fontes', 'informou o g1') diretamente no texto, narre os fatos.\n  "

  /** The system instruction for a category. */
  function SystemInstruction(category: NewsCategory): string {
    InstructionHead + category.Label() + InstructionRules
  }

  const FactsHead: string := "INFORMAÇÕES BASE (TEXTO):\n"
  const FactsTail: string :=
    "\n\nUtilize também o conteúdo visual ou textual dos arquivos anexados abaixo para enriquecer a notícia."

  /** The text part that carries the raw facts. */
  function FactsText(facts: string): string {
    FactsHead + facts + FactsTail
  }

  /** The instruction names the category, and the text part carries the facts verbatim. */
  lemma PromptsEmbedInputs(category: NewsCategory, facts: string)
    ensures OccursAt(category.Label(), SystemInstruction(category), |InstructionHead|)
    ensures OccursAt(facts, FactsText(facts), |FactsHead|)
    ensures IsInfix(category.Label(), SystemInstruction(category)) && IsInfix(facts, FactsText(facts))
  {
    InfixOfConcat(InstructionHead, category.Label(), InstructionRules);
    InfixOfConcat(FactsHead, facts, FactsTail);
  }

  datatype Part = TextPart(text: string) | InlineDataPart(mimeType: string, data: string)

  /** One inline part per file, carrying the file's MIME type and base64 data. */
  function InlineParts(files: seq<StoredFile>): seq<Part> {
    if files == [] then [] else [InlineDataPart(files[0].mimeType, files[0].data)] + InlineParts(files[1..])
  }

  /** The parts list: the facts text, then the files in order. */
  function Parts(facts: string, files: seq<StoredFile>): seq<Part> {
    [TextPart(FactsText(facts))] + InlineParts(files)
  }

  /** The parts list has one entry more than there are files, the i-th file at i + 1. */
  lemma {:induction false} PartsShape(facts: string, files: seq<StoredFile>)
    ensures |Parts(facts, files)| == |files| + 1
    ensures Parts(facts, files)[0] == TextPart(FactsText(facts))
    ensures forall i :: 0 <= i < |files| ==>
      Parts(facts, files)[i + 1] == InlineDataPart(files[i].mimeType, files[i].data)
  {
    InlinePartsShape(files);
  }

  lemma {:induction false} InlinePartsShape(files: seq<StoredFile>)
    ensures |InlineParts(files)| == |files|
    ensures forall i :: 0 <= i < |files| ==> InlineParts(files)[i] == InlineDataPart(files[i].mimeType, files[i].data)
  {
    if files != [] {
      InlinePartsShape(files[1..]);
    }
  }

  /** Building the parts with `push` in a `forEach` over the files. */
  method BuildParts(facts: string, files: seq<StoredFile>) returns (parts: seq<Part>)
    ensures parts == Parts(facts, files)
  {
    parts := [TextPart(FactsText(facts))];
    var i := 0;
    while i < |files|
      invariant 0 <= i <= |files|
      invariant parts == [TextPart(FactsText(facts))] + InlineParts(files[..i])
    {
      InlinePartsSnoc(files[..i], files[i]);
      assert files[..i + 1] == files[..i] + [files[i]];
      parts := parts + [InlineDataPart(files[i].mimeType, files[i].data)];
      i := i + 1;
    }
    assert files[..i] == files;
  }

  lemma {:induction false} InlinePartsSnoc(files: seq<StoredFile>, f: StoredFile)
    ensures InlineParts(files + [f]) == InlineParts(files) + [InlineDataPart(f.mimeType, f.data)]
  {
    if files != [] {
      assert (files + [f])[1..] == files[1..] + [f];
      InlinePartsSnoc(files[1..], f);
    }
  }

  datatype ArticleRequest = ArticleRequest(systemInstruction: string, parts: seq<Part>, schema: Schema)

  /** The request `generateNewsArticle` sends for its inputs. */
  function ArticleRequestFor(category: NewsCategory, facts: string, files: seq<StoredFile>): ArticleRequest {
    ArticleRequest(SystemInstruction(category), Parts(facts, files), NewsSchema)
  }

  /**
   * `generateNewsArticle`: builds the request, asks the service, and returns
   * the parsed payload as it is. Every failure, the empty reply included,
   * surfaces as `GenerateFailure`.
   */
  method GenerateNewsArticle(category: NewsCategory, facts: string, files: seq<StoredFile>,
                             service: ArticleRequest -> Reply<GeneratedNews>)
    returns (result: Result<GeneratedNews, string>)
    ensures var reply := service(ArticleRequestFor(category, facts, files));
            && (result.Ok? <==> reply.Answer? && reply.text != "" && reply.parsed.Some?)
            && (result.Ok? ==> result.value == reply.parsed.value)
            && (result.Err? ==> result.error == GenerateFailure)
  {
    var parts := BuildParts(facts, files);
    var reply := service(ArticleRequest(SystemInstruction(category), parts, NewsSchema));
    result := Rewrap(ReadReply(reply), GenerateFailure);
  }

  // ---- headline optimisation ----

  datatype HeadlinePayload = HeadlinePayload(newHeadline: string)

  datatype HeadlineRequest = HeadlineRequest(prompt: string, schema: Schema)

  const PromptHead: string :=
    "\n    Você é um especialista em SEO e Copywriting para jornalismo digital.\n    \n    CONTEXTO DA NOTÍCIA:\n    Categoria: "
  const PromptHeadline: string := "\n    Manchete Atual: \""
  const PromptSubtitle: string := "\"\n    Subtítulo: \""
  const PromptLead: string := "\"\n    Lead: \""
  const PromptTask: string :=
    "\"\n    \n    TAREFA:\n"
    + "    Reescreva a manchete atual para torná-la MUITO mais chamativa, impactante e otimizada para SEO (cliques e busca).\n"
    + "    Mantenha o tom jornalístico, mas aumente a curiosidade ou a urgência.\n"
    + "    Não use clickbait enganoso, apenas torne o fato mais atraente.\n"
    + "    A nova manchete deve ser diferente da atual.\n"
    + "    \n    RETORNE APENAS UM JSON com a propriedade \"newHeadline\".\n  "

  /** The rewrite prompt for a headline, given the category's label. */
  function HeadlinePrompt(headline: string, subtitle: string, lead: string, category: string): string {
    PromptHead + category + PromptHeadline + headline + PromptSubtitle + subtitle + PromptLead + lead + PromptTask
  }

  /** The prompt carries the category, the current headline, the subtitle and the lead. */
  lemma HeadlinePromptEmbedsInputs(headline: string, subtitle: string, lead: string, category: string)
    ensures var p := HeadlinePrompt(headline, subtitle, lead, category);
            IsInfix(category, p) && IsInfix(headline, p) && IsInfix(subtitle, p) && IsInfix(lead, p)
  {
    TemplateEmbeds(PromptHead, category, PromptHeadline, headline, PromptSubtitle, subtitle, PromptLead, lead, PromptTask);
  }

  /** Each hole of a five-piece template occurs in the filled-in text. */
  lemma TemplateEmbeds(a: string, w: string, b: string, x: string, c: string, y: string, d: string, z: string, e: string)
    ensures var p := a + w + b + x + c + y + d + z + e;
            IsInfix(w, p) && IsInfix(x, p) && IsInfix(y, p) && IsInfix(z, p)
  {
    var s2 := a + w;
    var s3 := s2 + b;
    var s4 := s3 + x;
    var s5 := s4 + c;
    var s6 := s5 + y;
    var s7 := s6 + d;
    var s8 := s7 + z;
    InfixAtEnd(a, w);
    InfixAtEnd(s3, x);
    InfixAtEnd(s5, y);
    InfixAtEnd(s7, z);
    // Each text occurring in one prefix occurs in the next, up to the whole prompt.
    InfixExtended(w, s2, b);
    InfixExtended(w, s3, x);
    InfixExtended(w, s4, c); InfixExtended(x, s4, c);
    InfixExtended(w, s5, y); InfixExtended(x, s5, y);
    InfixExtended(w, s6, d); InfixExtended(x, s6, d); InfixExtended(y, s6, d);
    InfixExtended(w, s7, z); InfixExtended(x, s7, z); InfixExtended(y, s7, z);
    InfixExtended(w, s8, e); InfixExtended(x, s8, e); InfixExtended(y, s8, e); InfixExtended(z, s8, e);
  }

  /**
   * `optimizeHeadline`: the result is the reply's `newHeadline`; every
   * failure surfaces as `OptimizeFailure`.
   */
  function OptimizeHeadline(headline: string, subtitle: string, lead: string, category: string,
                            service: HeadlineRequest -> Reply<HeadlinePayload>): (r: Result<string, string>)
    ensures var reply := service(HeadlineRequest(HeadlinePrompt(headline, subtitle, lead, category), HeadlineSchema));
            && (r.Ok? <==> reply.Answer? && reply.text != "" && reply.parsed.Some?)
            && (r.Ok? ==> r.value == reply.parsed.value.newHeadline)
            && (r.Err? ==> r.error == OptimizeFailure)
  {
    var reply := service(HeadlineRequest(HeadlinePrompt(headline, subtitle, lead, category), HeadlineSchema));
    match Rewrap(ReadReply(reply), OptimizeFailure)
    case Ok(payload) => Ok(payload.newHeadline)
    case Err(e) => Err(e)
  }
}
