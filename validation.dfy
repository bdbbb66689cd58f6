// Validation of user input. Each validator strips and checks its input
// against the limits and returns the value it accepts or a validation error.
module Validation {
  import opened Wrappers
  import opened Text
  import opened Constants
  import opened Exceptions

  function Invalid(message: string, userMessage: string): (e: AppError)
    ensures e.kind == Validation
  {
    NewError(Validation, message, Some(userMessage))
  }

  // `validate_review_text`.
  function ValidateReviewText(text: Option<string>): (r: Result<Option<string>, AppError>)
    ensures text.None? || Strip(text.value) == [] <==> r == Ok(None)
    ensures r.Ok? && r.value.Some? <==> text.Some? && Strip(text.value) != [] && |Strip(text.value)| <= MaxReviewLength
    ensures r.Ok? && r.value.Some? ==> r.value.value == Strip(text.value)
    ensures r.Err? ==> r.error.kind == Validation
  {
    if text.None? then Ok(None)
    else
      var t := Strip(text.value);
      if t == [] then Ok(None)
      else if |t| > MaxReviewLength then
        Err(Invalid("Review is too long (" + IntToString(|t|) + " chars)",
                    "Отзыв слишком длинный (максимум " + IntToString(MaxReviewLength) + " символов)"))
      else Ok(Some(t))
  }

  // `validate_rating`: None and values from 0 to 5 inclusive pass unchanged.
  function ValidateRating(rating: Option<real>): (r: Result<Option<real>, AppError>)
    ensures r.Ok? <==> rating.None? || MinRating <= rating.value <= MaxRating
    ensures r.Ok? ==> r.value == rating
    ensures r.Err? ==> r.error.kind == Validation
  {
    if rating.None? then Ok(None)
    else if !(MinRating <= rating.value <= MaxRating) then
      Err(Invalid("Rating " + TenthsText(rating.value) + " is out of range", "Оценка должна быть от 0.0 до 5.0"))
    else Ok(rating)
  }

  // The common shape of `validate_movie_query` and `validate_avoid_pattern`.
  function ValidateText(text: string, maxLength: int, emptyMessage: AppError, tooLong: string -> AppError): (r: Result<string, AppError>)
    ensures r.Ok? <==> Strip(text) != [] && |Strip(text)| <= maxLength
    ensures r.Ok? ==> r.value == Strip(text)
    ensures Strip(text) == [] ==> r == Err(emptyMessage)
  {
    var t := Strip(text);
    if t == [] then Err(emptyMessage)
    else if |t| > maxLength then Err(tooLong(t))
    else Ok(t)
  }

  // `validate_movie_query`.
  function ValidateMovieQuery(query: string): (r: Result<string, AppError>)
    ensures r.Ok? <==> Strip(query) != [] && |Strip(query)| <= MaxMovieQueryLength
    ensures r.Ok? ==> r.value == Strip(query)
    ensures r.Err? ==> r.error.kind == Validation
  {
    ValidateText(query, MaxMovieQueryLength,
      Invalid("Empty movie query", "Название фильма не может быть пустым"),
      t => Invalid("Movie query too long (" + IntToString(|t|) + " chars)",
                   "Запрос слишком длинный (максимум " + IntToString(MaxMovieQueryLength) + " символов)"))
  }

  // `validate_avoid_pattern`.
  function ValidateAvoidPattern(pattern: string): (r: Result<string, AppError>)
    ensures r.Ok? <==> Strip(pattern) != [] && |Strip(pattern)| <= MaxAvoidPatternLength
    ensures r.Ok? ==> r.value == Strip(pattern)
    ensures r.Err? ==> r.error.kind == Validation
  {
    ValidateText(pattern, MaxAvoidPatternLength,
      Invalid("Empty avoid pattern", "Описание темы не может быть пустым"),
      t => Invalid("Avoid pattern too long (" + IntToString(|t|) + " chars)",
                   "Описание слишком длинное (максимум " + IntToString(MaxAvoidPatternLength) + " символов)"))
  }

  const DefaultMinCount: int := 1
  const DefaultMaxCount: int := 20

  // `validate_count`; the source's defaults are DefaultMinCount and DefaultMaxCount.
  function ValidateCount(count: int, minVal: int, maxVal: int): (r: Result<int, AppError>)
    ensures r.Ok? <==> minVal <= count <= maxVal
    ensures r.Ok? ==> r.value == count
    ensures r.Err? ==> r.error.kind == Validation
  {
    if !(minVal <= count <= maxVal) then
      Err(Invalid("Count " + IntToString(count) + " is out of range [" + IntToString(minVal) + ", " + IntToString(maxVal) + "]",
                  "Количество должно быть от " + IntToString(minVal) + " до " + IntToString(maxVal)))
    else Ok(count)
  }

  // Validating again what a validator accepted changes nothing.
  lemma ValidateReviewTextIdempotent(text: Option<string>)
    requires ValidateReviewText(text).Ok?
    ensures ValidateReviewText(ValidateReviewText(text).value) == ValidateReviewText(text)
  {
    if text.Some? {
      StripIdempotent(text.value);
    }
  }

  lemma ValidateMovieQueryIdempotent(query: string)
    requires ValidateMovieQuery(query).Ok?
    ensures ValidateMovieQuery(ValidateMovieQuery(query).value) == ValidateMovieQuery(query)
  {
    StripIdempotent(query);
  }

  // The boundary cases of the tests: 5000 characters pass and 5001 fail, a
  // 200-character query passes.
  lemma ValidationBoundaries(s: string)
    requires s != [] && !IsSpace(s[0]) && !IsSpace(s[|s| - 1])
    ensures |s| == MaxReviewLength ==> ValidateReviewText(Some(s)) == Ok(Some(s))
    ensures |s| == MaxReviewLength + 1 ==> ValidateReviewText(Some(s)).Err?
    ensures |s| == MaxMovieQueryLength ==> ValidateMovieQuery(s) == Ok(s)
    ensures |s| == MaxAvoidPatternLength + 1 ==> ValidateAvoidPattern(s).Err?
  {
    StripNoSpaceEnds(s);
  }
}
