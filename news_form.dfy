/**
 * The generation form: its four state cells, the file-selection toggle, the
 * submit rule (enough facts, then the selected library files in library
 * order) and the condition that disables the submit button.
 */
module NewsForm {
  import opened Types
  import opened Text

  const MinFactsLength: nat := 10

  const ShortFactsAlert: string := "Por favor, insira mais detalhes sobre o fato para gerar uma boa notícia."

  /** The arguments of one `onSubmit` call. */
  datatype Submission = Submission(category: NewsCategory, facts: string, files: seq<StoredFile>, author: string)

  /** `availableFiles.filter(f => selectedFileIds.has(f.id))`. */
  function SelectedFiles(available: seq<StoredFile>, ids: set<string>): (r: seq<StoredFile>)
    ensures |r| <= |available|
    ensures forall f :: f in r <==> f in available && f.id in ids
  {
    if available == [] then []
    else if available[0].id in ids then [available[0]] + SelectedFiles(available[1..], ids)
    else SelectedFiles(available[1..], ids)
  }

  /** Selection works piecewise over the library, so it keeps library order. */
  lemma {:induction false} SelectedFilesConcat(a: seq<StoredFile>, b: seq<StoredFile>, ids: set<string>)
    ensures SelectedFiles(a + b, ids) == SelectedFiles(a, ids) + SelectedFiles(b, ids)
  {
    if a == [] {
      assert a + b == b;
    } else {
      assert (a + b)[1..] == a[1..] + b;
      SelectedFilesConcat(a[1..], b, ids);
    }
  }

  /** Only the ids that name library files matter; the others are dropped. */
  lemma {:induction false} UnmatchedIdsIgnored(available: seq<StoredFile>, ids: set<string>, extra: set<string>)
    requires forall i :: 0 <= i < |available| ==> available[i].id !in extra
    ensures SelectedFiles(available, ids + extra) == SelectedFiles(available, ids)
  {
    if available != [] {
      UnmatchedIdsIgnored(available[1..], ids, extra);
    }
  }

  /** Selecting every id of the library passes the whole library, in order. */
  lemma {:induction false} SelectAll(available: seq<StoredFile>, ids: set<string>)
    requires forall i :: 0 <= i < |available| ==> available[i].id in ids
    ensures SelectedFiles(available, ids) == available
  {
    if available != [] {
      SelectAll(available[1..], ids);
      assert [available[0]] + available[1..] == available;
    }
  }

  /** The selection after a click on `id`: an absent id is added, a present one removed. */
  function Toggled(ids: set<string>, id: string): (r: set<string>)
    ensures id in r <==> id !in ids
    ensures forall other :: other != id ==> (other in r <==> other in ids)
  {
    if id in ids then ids - {id} else ids + {id}
  }

  /** Clicking twice restores the selection. */
  lemma ToggleTwice(ids: set<string>, id: string)
    ensures Toggled(Toggled(ids, id), id) == ids
  {
  }

  /** Whether the facts are long enough, after trimming, to submit. */
  predicate FactsSufficient(facts: string) {
    |Trim(facts)| >= MinFactsLength
  }

  /** Facts long enough to submit never disable the button. */
  lemma SufficientFactsEnableSubmit(facts: string)
    requires FactsSufficient(facts)
    ensures Trim(facts) != []
    ensures exists i :: 0 <= i < |facts| && !IsSpace(facts[i])
  {
    TrimEmptyIff(facts);
  }

  class NewsFormState {
    var category: NewsCategory
    var facts: string
    var author: string
    var selectedFileIds: set<string>

    constructor ()
      ensures category == Brasil && facts == "" && author == "" && selectedFileIds == {}
    {
      category := Brasil;
      facts := "";
      author := "";
      selectedFileIds := {};
    }

    method SetCategory(c: NewsCategory)
      modifies this`category
      ensures category == c
    {
      category := c;
    }

    method SetFacts(text: string)
      modifies this`facts
      ensures facts == text
    {
      facts := text;
    }

    method SetAuthor(text: string)
      modifies this`author
      ensures author == text
    {
      author := text;
    }

    /** `toggleFile`: copies the set, adds or deletes the id, stores the copy. */
    method ToggleFile(id: string)
      modifies this`selectedFileIds
      ensures selectedFileIds == Toggled(old(selectedFileIds), id)
    {
      var newSet := selectedFileIds;
      if id in newSet {
        newSet := newSet - {id};
      } else {
        newSet := newSet + {id};
      }
      selectedFileIds := newSet;
    }

    /**
     * `handleSubmit`: with fewer than ten characters of trimmed facts the user
     * is alerted and nothing is submitted. Otherwise `onSubmit` gets the
     * category, the facts and the author as typed, and the selected library
     * files in library order.
     */
    method HandleSubmit(availableFiles: seq<StoredFile>) returns (submitted: Option<Submission>, alert: Option<string>)
      ensures submitted.None? <==> !FactsSufficient(facts)
      ensures alert.Some? <==> submitted.None?
      ensures alert.Some? ==> alert.value == ShortFactsAlert
      ensures submitted.Some? ==>
                submitted.value == Submission(category, facts, SelectedFiles(availableFiles, selectedFileIds), author)
    {
      if |Trim(facts)| < MinFactsLength {
        return None, Some(ShortFactsAlert);
      }
      var selectedFiles := SelectedFiles(availableFiles, selectedFileIds);
      submitted := Some(Submission(category, facts, selectedFiles, author));
      alert := None;
    }

    /** The submit button is disabled while loading or while the facts are only white space. */
    function SubmitDisabled(isLoading: bool): (disabled: bool)
      reads this
      ensures disabled <==> isLoading || forall i :: 0 <= i < |facts| ==> IsSpace(facts[i])
    {
      TrimEmptyIff(facts);
      isLoading || Trim(facts) == ""
    }
  }
}
