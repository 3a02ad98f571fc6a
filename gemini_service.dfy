/** The glue around the generative-AI service. Each remote call is an oracle: a function
    from what is sent to the parsed reply, or to nothing when the call or the parse fails. */
module GeminiService {
  import opened Wrappers
  import opened Strings
  import opened Types
  import Constants

  const AnalyzeFailedMessage: string := "Failed to analyze the image. Please try another one."
  const WeatherFailedMessage: string := "Could not fetch weather information for your location."
  const EmptyWardrobeMessage: string := "Wardrobe is empty."
  const OutfitFailedMessage: string := "Failed to generate an outfit. Please try a different prompt."

  datatype InlineData = InlineData(data: string, mimeType: string)

  /** The image part sent with a classification request. */
  datatype GenerativePart = GenerativePart(inlineData: InlineData)

  /** The classifier's parsed reply; its category is whatever string the service chose. */
  datatype RawClassification = RawClassification(name: string, category: string, subCategory: string)

  /** A classification as the application uses it. */
  datatype Classification = Classification(name: string, category: Category, subCategory: string)

  datatype Position = Position(latitude: Number, longitude: Number)

  /** An item as it is described to the stylist: no image and no creation time. */
  datatype PromptItem = PromptItem(id: string, name: string, category: Category, subCategory: string)

  /** What a recommendation request carries besides the fixed instructions. */
  datatype RecommendationRequest = RecommendationRequest(items: seq<PromptItem>, occasion: string, weatherSentence: string)

  /** `fileToGenerativePart`: the base64 data and the MIME type pass through as they are. */
  function FileToGenerativePart(base64: string, mimeType: string): (part: GenerativePart)
    ensures part.inlineData.data == base64 && part.inlineData.mimeType == mimeType
  {
    GenerativePart(InlineData(base64, mimeType))
  }

  /** The category check: a category outside the list becomes `Unknown`; name and
      sub-category are kept either way. */
  function NormalizeClassification(raw: RawClassification): (c: Classification)
    ensures c.name == raw.name && c.subCategory == raw.subCategory
    ensures raw.category in Constants.CategoriesList() ==> CategoryValue(c.category) == raw.category
    ensures raw.category !in Constants.CategoriesList() ==> c.category == Unknown
  {
    match Constants.ListedCategory(raw.category)
    case None => Classification(raw.name, Unknown, raw.subCategory)
    case Some(cat) => Classification(raw.name, cat, raw.subCategory)
  }

  /** `categorizeClothingItem`: every failure surfaces as one message. */
  function CategorizeClothingItem(imageBase64: string, mimeType: string,
                                  classify: GenerativePart -> Option<RawClassification>): (r: Result<Classification, string>)
    ensures var reply := classify(FileToGenerativePart(imageBase64, mimeType));
      && (r.Failure? <==> reply.None?)
      && (r.Failure? ==> r.error == AnalyzeFailedMessage)
      && (r.Success? ==> r.value.name == reply.value.name && r.value.subCategory == reply.value.subCategory)
      && (r.Success? ==> (r.value.category == Unknown <==> reply.value.category !in Constants.CategoriesList()))
      && (r.Success? && reply.value.category in Constants.CategoriesList() ==>
            CategoryValue(r.value.category) == reply.value.category)
  {
    match classify(FileToGenerativePart(imageBase64, mimeType))
    case None => Failure(AnalyzeFailedMessage)
    case Some(raw) =>
      var c := NormalizeClassification(raw);
      assert raw.category in Constants.CategoriesList() ==> c.category != Unknown by {
        if raw.category in Constants.CategoriesList() {
          Constants.EveryKnownCategoryListed(c.category);
        }
      }
      Success(c)
  }

  /** A listed category comes back unchanged, an unlisted one as `Unknown`. */
  lemma NormalizeKeepsListedCategory(raw: RawClassification, c: Category)
    requires raw.category == CategoryValue(c)
    ensures NormalizeClassification(raw).category == if c == Unknown then Unknown else c
  {
    Constants.EveryKnownCategoryListed(c);
    var n := NormalizeClassification(raw);
    if c != Unknown {
      Constants.EveryKnownCategoryListed(n.category);
      CategoryValueInjective(n.category, c);
    }
  }

  // Categories are told apart by their values.
  lemma CategoryValueInjective(a: Category, b: Category)
    requires CategoryValue(a) == CategoryValue(b)
    ensures a == b
  {
  }

  /** `getWeatherForLocation`: the parsed reply, or the one weather failure message. */
  function GetWeatherForLocation(position: Position, fetch: Position -> Option<Weather>): (r: Result<Weather, string>)
    ensures r.Failure? <==> fetch(position).None?
    ensures r.Failure? ==> r.error == WeatherFailedMessage
    ensures r.Success? ==> r.value == fetch(position).value
  {
    match fetch(position)
    case None => Failure(WeatherFailedMessage)
    case Some(w) => Success(w)
  }

  /** The wardrobe as shown to the stylist: same length and order, each entry keeping
      exactly the id, name, category and sub-category. */
  function ForPrompt(wardrobe: seq<ClothingItem>): (r: seq<PromptItem>)
    ensures |r| == |wardrobe|
    ensures forall i :: 0 <= i < |r| ==>
              r[i].id == wardrobe[i].id && r[i].name == wardrobe[i].name
              && r[i].category == wardrobe[i].category && r[i].subCategory == wardrobe[i].subCategory
  {
    seq(|wardrobe|, i requires 0 <= i < |wardrobe| =>
      PromptItem(wardrobe[i].id, wardrobe[i].name, wardrobe[i].category, wardrobe[i].subCategory))
  }

  /** The weather sentence of the prompt; the degree sign is spelled as the source file has
      it, as the two characters U+00C2 U+00B0. */
  function WeatherSentence(weather: Option<Weather>): (s: string)
    ensures s == "" <==> weather.None?
    ensures weather.Some? ==> IsInfix(weather.value.temperature.text, s) && IsInfix(weather.value.description, s)
  {
    match weather
    case None => ""
    case Some(w) =>
      var head := "The current weather is ";
      var mid := "\U{00C2}\U{00B0}C and it is ";
      var tail := ". Please consider this when selecting items.";
      var s := head + w.temperature.text + mid + w.description + tail;
      assert s == head + w.temperature.text + (mid + w.description + tail);
      InfixOfConcat(head, w.temperature.text, mid + w.description + tail);
      InfixOfConcat(head + w.temperature.text + mid, w.description, tail);
      s
  }

  /** The body of the `try` in `getOutfitRecommendation`: an empty wardrobe throws before any
      request is made. */
  function RecommendationAttempt(wardrobe: seq<ClothingItem>, userPrompt: string, weather: Option<Weather>,
                                 recommend: RecommendationRequest -> Option<OutfitRecommendation>): (r: Result<OutfitRecommendation, string>)
    ensures |wardrobe| == 0 ==> r == Failure(EmptyWardrobeMessage)
  {
    if |wardrobe| == 0 then Failure(EmptyWardrobeMessage)
    else
      match recommend(RecommendationRequest(ForPrompt(wardrobe), userPrompt, WeatherSentence(weather)))
      case None => Failure(OutfitFailedMessage)
      case Some(rec) => Success(rec)
  }

  /** `getOutfitRecommendation`: whatever goes wrong inside, the caller sees one message. */
  function GetOutfitRecommendation(wardrobe: seq<ClothingItem>, userPrompt: string, weather: Option<Weather>,
                                   recommend: RecommendationRequest -> Option<OutfitRecommendation>): (r: Result<OutfitRecommendation, string>)
    ensures r.Failure? ==> r.error == OutfitFailedMessage
    ensures |wardrobe| == 0 ==> r.Failure?
    ensures |wardrobe| > 0 ==>
      var reply := recommend(RecommendationRequest(ForPrompt(wardrobe), userPrompt, WeatherSentence(weather)));
      (r.Success? <==> reply.Some?) && (r.Success? ==> r.value == reply.value)
  {
    match RecommendationAttempt(wardrobe, userPrompt, weather, recommend)
    case Failure(_) => Failure(OutfitFailedMessage)
    case Success(rec) => Success(rec)
  }

  /** The inner "Wardrobe is empty." never reaches the caller: it is re-wrapped. */
  lemma EmptyWardrobeIsRewrapped(userPrompt: string, weather: Option<Weather>,
                                 recommend: RecommendationRequest -> Option<OutfitRecommendation>)
    ensures RecommendationAttempt([], userPrompt, weather, recommend) == Failure(EmptyWardrobeMessage)
    ensures GetOutfitRecommendation([], userPrompt, weather, recommend) == Failure(OutfitFailedMessage)
    ensures OutfitFailedMessage != EmptyWardrobeMessage
  {
    assert |OutfitFailedMessage| != |EmptyWardrobeMessage|;
  }
}
