/** The outfit dialog: an occasion prompt, an optional weather lookup, and the
    recommendation shown as the wardrobe items it names. */
module OutfitModal {
  import opened Wrappers
  import opened Strings
  import opened Types
  import Seqs
  import GeminiService

  const DescribeOccasionMessage: string := "Please describe the occasion."
  const RecommendationFallbackMessage: string := "Failed to get recommendation."
  const NoGeolocationMessage: string := "Geolocation is not supported by your browser."
  const WeatherFallbackMessage: string := "Could not get weather data."
  const LocationDeniedMessage: string := "Unable to retrieve your location. Please enable location permissions."

  /** `recommendedItems`: the wardrobe items whose ids the recommendation names, in
      wardrobe order; ids the wardrobe does not have are ignored. */
  function RecommendedItems(recommendation: Option<OutfitRecommendation>, wardrobe: seq<ClothingItem>): (items: seq<ClothingItem>)
    ensures recommendation.None? ==> items == []
    ensures Seqs.IsSubsequence(items, wardrobe)
    ensures recommendation.Some? ==>
              forall x :: x in items <==> x in wardrobe && x.id in recommendation.value.itemIds
    ensures recommendation.Some? ==>
              forall x :: multiset(items)[x] ==
                if x.id in recommendation.value.itemIds then multiset(wardrobe)[x] else 0
  {
    match recommendation
    case None => []
    case Some(rec) =>
      var keep := (x: ClothingItem) => x.id in rec.itemIds;
      Seqs.FilterIsSubsequence(wardrobe, keep);
      forall x
        ensures multiset(Seqs.Filter(wardrobe, keep))[x] == if keep(x) then multiset(wardrobe)[x] else 0
        ensures x in Seqs.Filter(wardrobe, keep) <==> x in wardrobe && keep(x)
      {
        Seqs.FilterCounts(wardrobe, keep, x);
        Seqs.FilterMembership(wardrobe, keep, x);
      }
      Seqs.Filter(wardrobe, keep)
  }

  /** The order of `itemIds` plays no part: the items come out in wardrobe order. */
  lemma RecommendedItemsFollowWardrobeOrder()
    ensures var a := ClothingItem("a", "", Tops, "", "", 0);
            var b := ClothingItem("b", "", Bottoms, "", "", 0);
            RecommendedItems(Some(OutfitRecommendation("", ["b", "a", "z"], "")), [a, b]) == [a, b]
  {
    var a := ClothingItem("a", "", Tops, "", "", 0);
    var b := ClothingItem("b", "", Bottoms, "", "", 0);
    assert "a" in ["b", "a", "z"] && "b" in ["b", "a", "z"];
    Seqs.FilterKeepsAll([a, b], (x: ClothingItem) => x.id in ["b", "a", "z"]);
  }

  /** The service's own failure messages are never empty, so the fallbacks never show. */
  lemma ServiceMessagesAreShown()
    ensures MessageOr(GeminiService.OutfitFailedMessage, RecommendationFallbackMessage) == GeminiService.OutfitFailedMessage
    ensures MessageOr(GeminiService.WeatherFailedMessage, WeatherFallbackMessage) == GeminiService.WeatherFailedMessage
  {
    assert |GeminiService.OutfitFailedMessage| > 0;
    assert |GeminiService.WeatherFailedMessage| > 0;
  }

  class OutfitModalState {
    var prompt: string
    var recommendation: Option<OutfitRecommendation>
    var isLoading: bool
    var error: Option<string>
    var weather: Option<Weather>
    var isFetchingWeather: bool
    var weatherError: Option<string>

    /** Every field holds its initial value. */
    predicate Initial()
      reads this
    {
      prompt == "" && recommendation == None && !isLoading && error == None
      && weather == None && !isFetchingWeather && weatherError == None
    }

    constructor ()
      ensures Initial()
    {
      prompt := "";
      recommendation := None;
      isLoading := false;
      error := None;
      weather := None;
      isFetchingWeather := false;
      weatherError := None;
    }

    /** The occasion input changes. */
    method SetPrompt(text: string)
      modifies this`prompt
      ensures prompt == text
    {
      prompt := text;
    }

    /** `handleFetchWeather` up to the position request. Returns whether a position was
        requested; without geolocation only the weather error changes. */
    method HandleFetchWeather(geolocationSupported: bool) returns (requested: bool)
      modifies this`isFetchingWeather, this`weatherError, this`weather
      ensures requested == geolocationSupported
      ensures !geolocationSupported ==>
                weatherError == Some(NoGeolocationMessage)
                && isFetchingWeather == old(isFetchingWeather) && weather == old(weather)
      ensures geolocationSupported ==> isFetchingWeather && weatherError == None && weather == None
    {
      if !geolocationSupported {
        weatherError := Some(NoGeolocationMessage);
        return false;
      }
      isFetchingWeather := true;
      weatherError := None;
      weather := None;
      requested := true;
    }

    /** The position callback: ask for the weather there. */
    method OnPosition(position: GeminiService.Position, fetch: GeminiService.Position -> Option<Weather>)
      modifies this`isFetchingWeather, this`weatherError, this`weather
      ensures var r := GeminiService.GetWeatherForLocation(position, fetch);
        && (r.Success? ==> weather == Some(r.value) && weatherError == old(weatherError))
        && (r.Failure? ==> weatherError == Some(MessageOr(r.error, WeatherFallbackMessage)) && weather == old(weather))
      ensures !isFetchingWeather
    {
      var r := GeminiService.GetWeatherForLocation(position, fetch);
      if r.Success? {
        weather := Some(r.value);
      } else {
        weatherError := Some(MessageOr(r.error, WeatherFallbackMessage));
      }
      isFetchingWeather := false;
    }

    /** The position error callback. */
    method OnPositionError()
      modifies this`isFetchingWeather, this`weatherError
      ensures weatherError == Some(LocationDeniedMessage) && !isFetchingWeather
    {
      weatherError := Some(LocationDeniedMessage);
      isFetchingWeather := false;
    }

    /** `handleGetRecommendation` up to the service call. Returns whether the service is
        called: not for an empty prompt, which only sets the error. */
    method StartRecommendation() returns (calling: bool)
      modifies this`isLoading, this`error, this`recommendation
      ensures calling <==> prompt != ""
      ensures !calling ==> error == Some(DescribeOccasionMessage)
                           && isLoading == old(isLoading) && recommendation == old(recommendation)
      ensures calling ==> isLoading && error == None && recommendation == None
    {
      if prompt == "" {
        error := Some(DescribeOccasionMessage);
        return false;
      }
      isLoading := true;
      error := None;
      recommendation := None;
      calling := true;
    }

    /** `handleGetRecommendation` once the service call settles. */
    method SettleRecommendation(result: Result<OutfitRecommendation, string>)
      modifies this`isLoading, this`error, this`recommendation
      ensures result.Success? ==> recommendation == Some(result.value) && error == old(error)
      ensures result.Failure? ==>
                error == Some(MessageOr(result.error, RecommendationFallbackMessage)) && recommendation == old(recommendation)
      ensures !isLoading
    {
      if result.Success? {
        recommendation := Some(result.value);
      } else {
        error := Some(MessageOr(result.error, RecommendationFallbackMessage));
      }
      isLoading := false;
    }

    /** `handleGetRecommendation` as a whole, the service answering through `recommend`. */
    method HandleGetRecommendation(wardrobe: seq<ClothingItem>,
                                   recommend: GeminiService.RecommendationRequest -> Option<OutfitRecommendation>)
      returns (called: bool)
      modifies this`isLoading, this`error, this`recommendation
      ensures called <==> prompt != ""
      ensures !called ==> error == Some(DescribeOccasionMessage)
                          && isLoading == old(isLoading) && recommendation == old(recommendation)
      ensures called ==>
        var r := GeminiService.GetOutfitRecommendation(wardrobe, prompt, weather, recommend);
        && !isLoading
        && (r.Success? ==> recommendation == Some(r.value) && error == None)
        && (r.Failure? ==> recommendation == None && error == Some(GeminiService.OutfitFailedMessage))
    {
      called := StartRecommendation();
      if !called {
        return;
      }
      var r := GeminiService.GetOutfitRecommendation(wardrobe, prompt, weather, recommend);
      ServiceMessagesAreShown();
      SettleRecommendation(r);
    }

    /** `handleClose`: every field back to its initial value. */
    method HandleClose()
      modifies this
      ensures Initial()
    {
      prompt := "";
      recommendation := None;
      error := None;
      isLoading := false;
      weather := None;
      weatherError := None;
      isFetchingWeather := false;
    }
  }
}
