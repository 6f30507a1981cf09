/**
 * The article view: what it derives from the article (the picture, its
 * credit, the author's name and initials) and the guarded headline
 * optimisation that feeds `onUpdateHeadline`.
 */
module NewsDisplay {
  import opened Types
  import opened Text
  import GeminiService
  import Application

  const PicsumPrefix: string := "https://picsum.photos/id/"
  const PicsumSuffix: string := "/800/400"
  const UserImageCredit: string := "Imagem enviada pelo usuário"
  const PicsumCredit: string := "Imagem Ilustrativa via Picsum"
  const OptimizeAlert: string := "Não foi possível otimizar o título agora."

  /** An optional string that JavaScript treats as true: present and non-empty. */
  predicate Truthy(v: Option<string>) {
    v.Some? && v.value != ""
  }

  /** The placeholder picture: its id is the category label's length plus 50. */
  function FallbackImageUrl(category: NewsCategory): string {
    PicsumPrefix + Decimal(|category.Label()| + 50) + PicsumSuffix
  }

  /** The picture shown: the article's own when it has one, else the placeholder. */
  function ImageSource(news: GeneratedNews, category: NewsCategory): (src: string)
    ensures Truthy(news.imageUrl) ==> src == news.imageUrl.value
    ensures !Truthy(news.imageUrl) ==> src == FallbackImageUrl(category)
  {
    if Truthy(news.imageUrl) then news.imageUrl.value else FallbackImageUrl(category)
  }

  /** The picture's credit line. */
  function ImageCredit(news: GeneratedNews): string {
    if Truthy(news.imageUrl) then UserImageCredit else PicsumCredit
  }

  /** The credit names the user exactly when the article's own picture is shown. */
  lemma CreditMatchesPicture(news: GeneratedNews, category: NewsCategory)
    ensures ImageCredit(news) == UserImageCredit <==> Truthy(news.imageUrl)
    ensures ImageCredit(news) == PicsumCredit ==> ImageSource(news, category) == FallbackImageUrl(category)
  {
    assert UserImageCredit != PicsumCredit by {
      assert UserImageCredit[0] != PicsumCredit[0] || UserImageCredit[7] != PicsumCredit[7];
    }
  }

  /** The placeholder's id, read back from the URL, is the label's length plus 50. */
  lemma FallbackCarriesLength(category: NewsCategory)
    ensures var digits := FallbackImageUrl(category)[|PicsumPrefix|..|FallbackImageUrl(category)| - |PicsumSuffix|];
            digits == Decimal(|category.Label()| + 50)
            && DecimalValue(digits) == |category.Label()| + 50
  {
    var n := |category.Label()| + 50;
    var url := FallbackImageUrl(category);
    assert url[|PicsumPrefix|..|url| - |PicsumSuffix|] == Decimal(n);
    DecimalRoundTrip(n);
  }

  /** `news.author || 'Redação Digital'`. */
  function AuthorName(news: GeneratedNews): (name: string)
    ensures name != ""
    ensures Truthy(news.author) ==> name == news.author.value
    ensures !Truthy(news.author) ==> name == Application.DefaultAuthor
  {
    if Truthy(news.author) then news.author.value else Application.DefaultAuthor
  }

  /** `n[0]` of a segment; the `undefined` of an empty segment joins as nothing. */
  function FirstChar(segment: string): string {
    if segment == [] then [] else [segment[0]]
  }

  /** `.map(n => n[0]).join('')`. */
  function FirstChars(segments: seq<string>): (r: string)
    ensures |r| <= |segments|
  {
    if segments == [] then [] else FirstChar(segments[0]) + FirstChars(segments[1..])
  }

  /** `.slice(0, 2)`. */
  function TakeTwo(segments: seq<string>): (r: seq<string>)
    ensures |r| <= 2 && |r| <= |segments| && r == segments[..|r|]
    ensures |segments| >= 2 ==> |r| == 2
    ensures |segments| < 2 ==> r == segments
  {
    if |segments| <= 2 then segments else segments[..2]
  }

  /** The avatar's letters: split on spaces, first character of the first two segments, upper-cased. */
  function AuthorInitials(name: string): (initials: string)
    ensures |initials| <= 2
  {
    UpperCase(FirstChars(TakeTwo(Split(name, ' '))))
  }

  /** The first character of `t` when `t` does not open with a space. */
  function LeadChar(t: string): string {
    if t != [] && t[0] != ' ' then [t[0]] else []
  }

  /** The first character of the first segment of a split is the text's leading non-space character. */
  lemma FirstSegmentLead(t: string)
    ensures FirstChar(Split(t, ' ')[0]) == LeadChar(t)
  {
    if t != [] && t[0] != ' ' {
      var rest := Split(t[1..], ' ');
      assert Split(t, ' ')[0] == [t[0]] + rest[0];
    }
  }

  /** A name without spaces gives at most its own first letter. */
  lemma InitialsWithoutSpace(name: string)
    requires ' ' !in name
    ensures AuthorInitials(name) == UpperCase(LeadChar(name))
  {
    SplitFree(name, ' ');
    assert FirstChars([name]) == FirstChar(name);
  }

  /**
   * With its first space at `i`, a name gives the letter before the space (if
   * any) and the one right after it (unless another space follows).
   */
  lemma InitialsAtFirstSpace(name: string, i: nat)
    requires i < |name| && name[i] == ' ' && ' ' !in name[..i]
    ensures AuthorInitials(name) == UpperCase(LeadChar(name) + LeadChar(name[i + 1..]))
  {
    var w, t := name[..i], name[i + 1..];
    assert name == w + [' '] + t;
    SplitAfterPiece(w, ' ', t);
    var segments := [w] + Split(t, ' ');
    assert Split(name, ' ') == segments;
    var two := TakeTwo(segments);
    assert two == [w, segments[1]];
    assert FirstChars(two) == FirstChar(w) + FirstChar(segments[1]) by {
      assert two[1..] == [segments[1]];
      assert FirstChars([segments[1]]) == FirstChar(segments[1]);
    }
    FirstSegmentLead(t);
    assert FirstChar(w) == LeadChar(name) by {
      if i > 0 {
        assert w[0] == name[0] && name[0] in w;
      }
    }
  }

  /** Two words separated by one space give the first letter of each, upper-cased. */
  lemma InitialsOfTwoWords(w: string, t: string)
    requires w != [] && ' ' !in w
    requires t != [] && t[0] != ' '
    ensures AuthorInitials(w + [' '] + t) == UpperCase([w[0], t[0]])
  {
    var name := w + [' '] + t;
    assert name[..|w|] == w && name[|w|] == ' ' && name[|w| + 1..] == t;
    InitialsAtFirstSpace(name, |w|);
    assert LeadChar(name) == [w[0]];
    assert LeadChar(t) == [t[0]];
  }

  /** The default author appears as "RD". */
  lemma DefaultAuthorInitials()
    ensures AuthorInitials(Application.DefaultAuthor) == "RD"
  {
    var w, t := "Redação", "Digital";
    assert ' ' !in w by {
      forall k | 0 <= k < |w| ensures w[k] != ' ' {
      }
    }
    assert Application.DefaultAuthor == w + [' '] + t;
    InitialsOfTwoWords(w, t);
    assert UpperCase([w[0], t[0]]) == [UpperChar('R'), UpperChar('D')];
  }

  /** The headline-optimisation flag of one article view. */
  class NewsDisplayState {
    var isOptimizing: bool

    constructor ()
      ensures !isOptimizing
    {
      isOptimizing := false;
    }

    /** The start of `handleOptimizeTitle`: ignored while a request is in flight. */
    method StartOptimize() returns (started: bool)
      modifies this`isOptimizing
      ensures started == !old(isOptimizing)
      ensures isOptimizing
    {
      if isOptimizing {
        return false;
      }
      isOptimizing := true;
      started := true;
    }

    /**
     * The end of `handleOptimizeTitle`, once the service has answered: on
     * success the new headline goes to `onUpdateHeadline`, on failure the user
     * is alerted and nothing is updated; the flag clears either way. `news` is
     * the prop of the render the click came from, and that render's
     * `onUpdateHeadline` closed over the same article as `generatedNews`, so
     * the update rebuilds the article from `news` even when the state has
     * moved on since the click.
     */
    method FinishOptimize(news: GeneratedNews, category: NewsCategory,
                          service: GeminiService.HeadlineRequest -> GeminiService.Reply<GeminiService.HeadlinePayload>,
                          app: Application.App)
      returns (alert: Option<string>)
      modifies this`isOptimizing, app`generatedNews
      ensures !isOptimizing
      ensures var r := GeminiService.OptimizeHeadline(news.manchete, news.subtitulo, news.lead, category.Label(), service);
              && (r.Ok? ==>
                    && alert == None
                    && app.generatedNews == Some(news.(manchete := r.value)))
              && (r.Err? ==> alert == Some(OptimizeAlert) && app.generatedNews == old(app.generatedNews))
    {
      var outcome := GeminiService.OptimizeHeadline(news.manchete, news.subtitulo, news.lead, category.Label(), service);
      match outcome {
        case Ok(newTitle) =>
          app.HandleHeadlineUpdate(Some(news), newTitle);
          alert := None;
        case Err(_) =>
          alert := Some(OptimizeAlert);
      }
      isOptimizing := false;
    }

    /**
     * `handleOptimizeTitle` when the reply arrives before any other click:
     * a click while a request is in flight changes nothing.
     */
    method HandleOptimizeTitle(news: GeneratedNews, category: NewsCategory,
                               service: GeminiService.HeadlineRequest -> GeminiService.Reply<GeminiService.HeadlinePayload>,
                               app: Application.App)
      returns (alert: Option<string>)
      modifies this`isOptimizing, app`generatedNews
      ensures old(isOptimizing) ==> isOptimizing && app.generatedNews == old(app.generatedNews) && alert == None
      ensures !old(isOptimizing) ==> !isOptimizing
      ensures !old(isOptimizing) ==>
                var r := GeminiService.OptimizeHeadline(news.manchete, news.subtitulo, news.lead, category.Label(), service);
                && (r.Ok? ==>
                      && alert == None
                      && app.generatedNews == Some(news.(manchete := r.value)))
                && (r.Err? ==> alert == Some(OptimizeAlert) && app.generatedNews == old(app.generatedNews))
    {
      var started := StartOptimize();
      if !started {
        return None;
      }
      alert := FinishOptimize(news, category, service, app);
    }

    /**
     * "Voltar" pressed while the headline request is in flight: the reset
     * clears the article, and a successful reply then brings back the article
     * of the click, with the new headline and no saved id.
     */
    method ResetWhileOptimizing(news: GeneratedNews, category: NewsCategory,
                                service: GeminiService.HeadlineRequest -> GeminiService.Reply<GeminiService.HeadlinePayload>,
                                app: Application.App)
      returns (alert: Option<string>)
      modifies this`isOptimizing, app`generatedNews, app`error, app`currentSavedId
      ensures !old(isOptimizing) ==>
                var r := GeminiService.OptimizeHeadline(news.manchete, news.subtitulo, news.lead, category.Label(), service);
                && (r.Ok? ==> app.generatedNews == Some(news.(manchete := r.value)) && app.currentSavedId == None)
                && (r.Err? ==> app.generatedNews == None && alert == Some(OptimizeAlert))
    {
      var started := StartOptimize();
      app.HandleReset();
      alert := None;
      if started {
        alert := FinishOptimize(news, category, service, app);
      }
    }
  }
}
