/**
 * The application root: the state cells held with `useState` and the
 * handlers that update them. Each handler is one atomic transition; the
 * random id, the timestamp, the AI service, the outcome of each storage
 * write and the answer to `confirm` are parameters.
 */
module Application {
  import opened Types
  import StorageService
  import GeminiService

  const DefaultAuthor: string := "Redação Digital"
  const UnknownError: string := "Ocorreu um erro desconhecido."

  /** `attachedFiles.find(f => f.type === 'image')`. */
  function FirstImage(files: seq<StoredFile>): (r: Option<StoredFile>)
    ensures r.None? <==> forall i :: 0 <= i < |files| ==> files[i].kind != Image
    ensures r.Some? ==> exists i :: 0 <= i < |files| && files[i] == r.value && r.value.kind == Image
                                   && forall j :: 0 <= j < i ==> files[j].kind != Image
  {
    if files == [] then None
    else if files[0].kind == Image then Some(files[0])
    else
      var r := FirstImage(files[1..]);
      assert r.Some? ==> exists i :: 0 <= i < |files[1..]| && files[1..][i] == r.value && r.value.kind == Image
                                   && forall j :: 0 <= j < i ==> files[1..][j].kind != Image;
      assert r.Some? ==> exists i :: 1 <= i < |files| && files[i] == r.value && r.value.kind == Image
                                   && forall j :: 0 <= j < i ==> files[j].kind != Image;
      r
  }

  /** A file's content as a `data:` URL. */
  function DataUrl(f: StoredFile): string {
    "data:" + f.mimeType + ";base64," + f.data
  }

  /** `author || 'Redação Digital'`. */
  function AuthorOrDefault(author: string): (r: string)
    ensures r != ""
    ensures author != "" ==> r == author
    ensures author == "" ==> r == DefaultAuthor
  {
    if author == "" then DefaultAuthor else author
  }

  /**
   * What a successful generation shows: the service's article with the first
   * attached image as its picture (when there is one) and the author filled in.
   */
  function Decorate(news: GeneratedNews, attachedFiles: seq<StoredFile>, author: string): (r: GeneratedNews)
    ensures r.author == Some(AuthorOrDefault(author))
    ensures FirstImage(attachedFiles).Some? ==> r.imageUrl == Some(DataUrl(FirstImage(attachedFiles).value))
    ensures FirstImage(attachedFiles).None? ==> r.imageUrl == news.imageUrl
    ensures r.(imageUrl := news.imageUrl, author := news.author) == news
  {
    var withImage :=
      match FirstImage(attachedFiles)
      case Some(hero) => news.(imageUrl := Some(DataUrl(hero)))
      case None => news;
    withImage.(author := Some(AuthorOrDefault(author)))
  }

  /** `err.message || 'Ocorreu um erro desconhecido.'`. */
  function ErrorText(message: string): (r: string)
    ensures r != ""
    ensures message != "" ==> r == message
    ensures message == "" ==> r == UnknownError
  {
    if message == "" then UnknownError else message
  }

  /** `files.filter(f => f.id !== id)`. */
  function WithoutFile(files: seq<StoredFile>, id: string): (r: seq<StoredFile>)
    ensures |r| <= |files|
    ensures forall f :: f in r <==> f in files && f.id != id
  {
    if files == [] then []
    else if files[0].id != id then [files[0]] + WithoutFile(files[1..], id)
    else WithoutFile(files[1..], id)
  }

  /** Removing by id works piecewise, so the remaining files keep their order. */
  lemma {:induction false} WithoutFileConcat(a: seq<StoredFile>, b: seq<StoredFile>, id: string)
    ensures WithoutFile(a + b, id) == WithoutFile(a, id) + WithoutFile(b, id)
  {
    if a != [] {
      assert (a + b)[1..] == a[1..] + b;
      WithoutFileConcat(a[1..], b, id);
    } else {
      assert a + b == b;
    }
  }

  /** Removing an id no file carries leaves the library as it is. */
  lemma {:induction false} WithoutAbsentFile(files: seq<StoredFile>, id: string)
    requires forall i :: 0 <= i < |files| ==> files[i].id != id
    ensures WithoutFile(files, id) == files
  {
    if files != [] {
      WithoutAbsentFile(files[1..], id);
      assert [files[0]] + files[1..] == files;
    }
  }

  /** Adding a file and then removing its id leaves the other files, in order. */
  lemma AddThenRemove(files: seq<StoredFile>, f: StoredFile)
    ensures WithoutFile(files + [f], f.id) == WithoutFile(files, f.id)
  {
    WithoutFileConcat(files, [f], f.id);
    assert WithoutFile([f], f.id) == [];
  }

  class App {
    var currentView: ViewState
    var files: seq<StoredFile>
    var generatedNews: Option<GeneratedNews>
    var selectedCategory: NewsCategory
    var loading: bool
    var error: Option<string>
    var savedNews: seq<SavedNewsItem>
    var currentSavedId: Option<string>
    const storage: StorageService.BrowserStorage

    /** Mounting: the initial cells, and the history loaded from storage. */
    constructor (storage: StorageService.BrowserStorage)
      ensures this.storage == storage
      ensures currentView == Dashboard && files == [] && generatedNews == None
      ensures selectedCategory == Brasil && !loading && error == None && currentSavedId == None
      ensures savedNews == StorageService.LoadList(storage.Lookup())
    {
      this.storage := storage;
      currentView := Dashboard;
      files := [];
      generatedNews := None;
      selectedCategory := Brasil;
      loading := false;
      error := None;
      currentSavedId := None;
      new;
      savedNews := storage.GetSavedNews();
    }

    /** `isSaved={!!currentSavedId}`: an empty id is falsy and reads as not saved. */
    function IsSaved(): bool
      reads this
    {
      currentSavedId.Some? && currentSavedId.value != ""
    }

    /** The first, synchronous half of `handleGenerateNews`. */
    method BeginGenerate(category: NewsCategory)
      modifies this`loading, this`error, this`generatedNews, this`currentSavedId, this`selectedCategory
      ensures loading && error == None && generatedNews == None && currentSavedId == None
      ensures selectedCategory == category
    {
      loading := true;
      error := None;
      generatedNews := None;
      currentSavedId := None;
      selectedCategory := category;
    }

    /** The second half, once the generation call has settled. */
    method CompleteGenerate(outcome: Result<GeneratedNews, string>, attachedFiles: seq<StoredFile>, author: string)
      modifies this`loading, this`error, this`generatedNews
      ensures !loading
      ensures outcome.Ok? ==> generatedNews == Some(Decorate(outcome.value, attachedFiles, author)) && error == old(error)
      ensures outcome.Err? ==> error == Some(ErrorText(outcome.error)) && generatedNews == old(generatedNews)
    {
      match outcome {
        case Ok(news) =>
          var shown := news;
          var heroImage := FirstImage(attachedFiles);
          if heroImage.Some? {
            shown := shown.(imageUrl := Some(DataUrl(heroImage.value)));
          }
          shown := shown.(author := Some(AuthorOrDefault(author)));
          generatedNews := Some(shown);
        case Err(message) =>
          error := Some(ErrorText(message));
      }
      loading := false;
    }

    /**
     * `handleGenerateNews`: both halves around the service call. After it
     * nothing is loading, and either the decorated article or the service's
     * one failure message is shown — never the unknown-error fallback.
     */
    method HandleGenerateNews(category: NewsCategory, facts: string, attachedFiles: seq<StoredFile>, author: string,
                              service: GeminiService.ArticleRequest -> GeminiService.Reply<GeneratedNews>)
      modifies this`loading, this`error, this`generatedNews, this`currentSavedId, this`selectedCategory
      ensures !loading && currentSavedId == None && selectedCategory == category
      ensures var reply := service(GeminiService.ArticleRequestFor(category, facts, attachedFiles));
              if reply.Answer? && reply.text != "" && reply.parsed.Some?
              then generatedNews == Some(Decorate(reply.parsed.value, attachedFiles, author)) && error == None
              else generatedNews == None && error == Some(GeminiService.GenerateFailure)
    {
      BeginGenerate(category);
      var outcome := GeminiService.GenerateNewsArticle(category, facts, attachedFiles, service);
      CompleteGenerate(outcome, attachedFiles, author);
    }

    /**
     * `handleHeadlineUpdate` as handed out by one render: `shown` is the
     * `generatedNews` that render closed over, which is what the handler
     * tests and copies, whatever the state is when it is called. Only the
     * headline differs from `shown`, and nothing happens when `shown` is empty.
     */
    method HandleHeadlineUpdate(shown: Option<GeneratedNews>, newHeadline: string)
      modifies this`generatedNews
      ensures shown.None? ==> generatedNews == old(generatedNews)
      ensures shown.Some? ==> generatedNews == Some(shown.value.(manchete := newHeadline))
      ensures shown == old(generatedNews) && old(generatedNews).Some? ==>
                generatedNews.Some? && generatedNews.value.manchete == newHeadline
                && generatedNews.value.(manchete := old(generatedNews).value.manchete) == old(generatedNews).value
    {
      if shown.Some? {
        generatedNews := Some(shown.value.(manchete := newHeadline));
      }
    }

    /** `handleReset`: back to the empty form. */
    method HandleReset()
      modifies this`generatedNews, this`error, this`currentSavedId
      ensures generatedNews == None && error == None && currentSavedId == None
    {
      generatedNews := None;
      error := None;
      currentSavedId := None;
    }

    /** "Tentar novamente": dismisses the error. */
    method DismissError()
      modifies this`error
      ensures error == None
    {
      error := None;
    }

    /** The header's navigation. */
    method Navigate(view: ViewState)
      modifies this`currentView
      ensures currentView == view
    {
      currentView := view;
    }

    /** `handleAddFile`: appends at the end. */
    method HandleAddFile(file: StoredFile)
      modifies this`files
      ensures files == old(files) + [file]
    {
      files := files + [file];
    }

    /** `handleRemoveFile`: drops every file with that id. */
    method HandleRemoveFile(id: string)
      modifies this`files
      ensures files == WithoutFile(old(files), id)
    {
      files := WithoutFile(files, id);
    }

    /**
     * `handleSaveNews`: with no article, nothing happens. Otherwise the item is
     * written to storage and prepended to the in-memory history whether or not
     * the write succeeded, and it becomes the current saved id.
     */
    method HandleSaveNews(newId: string, savedAt: string, writeSucceeds: bool)
      returns (alert: Option<string>)
      modifies this`savedNews, this`currentSavedId, storage
      ensures old(generatedNews).None? ==>
                savedNews == old(savedNews) && currentSavedId == old(currentSavedId)
                && storage.entries == old(storage.entries) && alert == None
      ensures old(generatedNews).Some? ==>
                var item := SavedNewsItem(generatedNews.value, newId, savedAt, selectedCategory);
                && savedNews == [item] + old(savedNews)
                && currentSavedId == Some(newId)
                && (IsSaved() <==> newId != "")
                && (writeSucceeds ==> storage.entries == old(storage.entries)[StorageService.StorageKey :=
                      StorageService.News(StorageService.SavedList(StorageService.LoadList(old(storage.Lookup())), item))])
                && (!writeSucceeds ==> storage.entries == old(storage.entries))
                && (alert.Some? <==> !writeSucceeds)
                && (alert.Some? ==> alert.value == StorageService.SaveFailedAlert)
                && (!writeSucceeds && InSync(old(savedNews), old(storage.Lookup())) ==> !InSync(savedNews, storage.Lookup()))
    {
      alert := None;
      if generatedNews.None? {
        return;
      }
      var newItem := SavedNewsItem(generatedNews.value, newId, savedAt, selectedCategory);
      alert := storage.SaveNewsToStorage(newItem, writeSucceeds);
      savedNews := [newItem] + savedNews;
      currentSavedId := Some(newItem.id);
    }

    /**
     * `handleDeleteSavedNews`: only when confirmed, the in-memory history
     * becomes whatever the storage delete returns — `[]` when its write fails.
     */
    method HandleDeleteSavedNews(id: string, confirmed: bool, writeSucceeds: bool)
      modifies this`savedNews, storage
      ensures !confirmed ==> savedNews == old(savedNews) && storage.entries == old(storage.entries)
      ensures confirmed && writeSucceeds ==>
                savedNews == StorageService.WithoutId(StorageService.LoadList(old(storage.Lookup())), id)
                && storage.entries == old(storage.entries)[StorageService.StorageKey := StorageService.News(savedNews)]
      ensures confirmed && !writeSucceeds ==> savedNews == [] && storage.entries == old(storage.entries)
      ensures confirmed && writeSucceeds ==> InSync(savedNews, storage.Lookup())
      ensures confirmed && !writeSucceeds && StorageService.LoadList(old(storage.Lookup())) != [] ==>
                !InSync(savedNews, storage.Lookup())
    {
      if confirmed {
        var updated := storage.DeleteNewsFromStorage(id, writeSucceeds);
        savedNews := updated;
      }
    }

    /** `handleSelectHistoryItem`: shows a saved article on the dashboard, as already saved. */
    method HandleSelectHistoryItem(item: SavedNewsItem)
      modifies this`generatedNews, this`selectedCategory, this`currentSavedId, this`currentView
      ensures generatedNews == Some(item.news) && selectedCategory == item.category
      ensures currentSavedId == Some(item.id) && currentView == Dashboard
      ensures IsSaved() <==> item.id != ""
    {
      generatedNews := Some(item.news);
      selectedCategory := item.category;
      currentSavedId := Some(item.id);
      currentView := Dashboard;
    }
  }

  // ---- how the in-memory history relates to the stored one ----

  /** The history in memory agrees with what storage would load. */
  predicate InSync(memory: seq<SavedNewsItem>, stored: Option<StorageService.Value>) {
    memory == StorageService.LoadList(stored)
  }

  /**
   * Saving a fresh id with a successful write keeps memory and storage in sync:
   * the item is prepended to both.
   */
  lemma SaveFreshKeepsSync(memory: seq<SavedNewsItem>, stored: Option<StorageService.Value>, item: SavedNewsItem)
    requires InSync(memory, stored)
    requires StorageService.CountId(memory, item.id) == 0
    ensures InSync([item] + memory, Some(StorageService.News(StorageService.SavedList(StorageService.LoadList(stored), item))))
  {
    StorageService.SaveKeepsOthers(memory, item);
  }

  /**
   * When the write fails, the in-memory history gains the item and storage
   * does not: the two diverge.
   */
  lemma FailedSaveDiverges(memory: seq<SavedNewsItem>, stored: Option<StorageService.Value>, item: SavedNewsItem)
    requires InSync(memory, stored)
    ensures !InSync([item] + memory, stored)
  {
  }

  /**
   * Saving an id already in the history duplicates it in memory, while storage
   * holds exactly one entry with it: the two diverge.
   */
  lemma DuplicateSaveDiverges(memory: seq<SavedNewsItem>, stored: Option<StorageService.Value>, item: SavedNewsItem)
    requires InSync(memory, stored)
    requires StorageService.CountId(memory, item.id) > 0
    ensures StorageService.CountId([item] + memory, item.id) >= 2
    ensures StorageService.CountId(StorageService.SavedList(StorageService.LoadList(stored), item), item.id) == 1
    ensures !InSync([item] + memory, Some(StorageService.News(StorageService.SavedList(StorageService.LoadList(stored), item))))
  {
    StorageService.SaveHeadUnique(memory, item);
  }
}
