/**
 * The data model shared by every component: the editorial categories, the
 * generated and the saved article, the uploaded file and the four views.
 */
module Types {

  datatype Option<T> = None | Some(value: T)

  datatype Result<T, E> = Ok(value: T) | Err(error: E)

  /** The seven editorial sections; `Label` is the enum's string value. */
  datatype NewsCategory = Brasil | Mundo | Politica | Economia | Tecnologia | Esporte | Entretenimento
  {
    function Label(): string {
      match this
      case Brasil => "Brasil"
      case Mundo => "Mundo"
      case Politica => "Política"
      case Economia => "Economia"
      case Tecnologia => "Tecnologia"
      case Esporte => "Esporte"
      case Entretenimento => "Entretenimento"
    }
  }

  /** `Object.values(NewsCategory)`, in declaration order. */
  const AllCategories: seq<NewsCategory> :=
    [Brasil, Mundo, Politica, Economia, Tecnologia, Esporte, Entretenimento]

  /** The value of a category `<select>` option read back as a category. */
  function CategoryOfLabel(name: string): Option<NewsCategory> {
    if name == "Brasil" then Some(Brasil)
    else if name == "Mundo" then Some(Mundo)
    else if name == "Política" then Some(Politica)
    else if name == "Economia" then Some(Economia)
    else if name == "Tecnologia" then Some(Tecnologia)
    else if name == "Esporte" then Some(Esporte)
    else if name == "Entretenimento" then Some(Entretenimento)
    else None
  }

  /** Every category is listed exactly once, and its label reads back as itself. */
  lemma CategoriesEnumerated(c: NewsCategory)
    ensures c in AllCategories
    ensures |AllCategories| == 7
    ensures forall i, j :: 0 <= i < j < |AllCategories| ==> AllCategories[i] != AllCategories[j]
    ensures CategoryOfLabel(c.Label()) == Some(c)
  {
  }

  /** A label names exactly one category: reading text succeeds only on a category label. */
  lemma LabelRoundTrip(name: string, c: NewsCategory)
    ensures CategoryOfLabel(name) == Some(c) <==> c.Label() == name
  {
    if CategoryOfLabel(name) == Some(c) {
      match c
      case Brasil => assert name == "Brasil";
      case Mundo => assert name == "Mundo";
      case Politica => assert name == "Política";
      case Economia => assert name == "Economia";
      case Tecnologia => assert name == "Tecnologia";
      case Esporte => assert name == "Esporte";
      case Entretenimento => assert name == "Entretenimento";
    }
  }

  /** A generated article. `imageUrl` and `author` are optional properties. */
  datatype GeneratedNews = GeneratedNews(
    manchete: string,
    subtitulo: string,
    lead: string,
    corpo: seq<string>,
    contexto: string,
    desdobramento: string,
    imageUrl: Option<string>,
    author: Option<string>)

  /** An article in the history: the article's fields plus id, save time and category. */
  datatype SavedNewsItem = SavedNewsItem(
    news: GeneratedNews,
    id: string,
    savedAt: string,
    category: NewsCategory)

  datatype FileKind = Image | Pdf

  /** An uploaded file; `data` is the base64 payload, `uploadDate` a timestamp. */
  datatype StoredFile = StoredFile(
    id: string,
    name: string,
    kind: FileKind,
    mimeType: string,
    data: string,
    size: nat,
    uploadDate: int)

  datatype ViewState = Dashboard | Files | History | Settings
}
