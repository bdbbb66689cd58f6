// The application's error values: every error carries an internal message
// (what `str(error)` shows) and a message for the user.
module Exceptions {
  import opened Wrappers
  import opened Text

  // The subclasses of `WhatToWatchError`; the two that take extra arguments
  // keep them.
  datatype ErrorKind =
    | General
    | Configuration
    | Validation
    | TmdbFailure
    | OpenAIFailure
    | DatabaseFailure
    | UserNotFound
    | MovieNotFound
    | InsufficientData(required: int, actual: int)
    | RateLimit(retryAfter: int)
    | EmbeddingFailure
    | RecommendationFailure

  datatype AppError = AppError(kind: ErrorKind, message: string, userMessage: string)
  {
    // `str(error)`.
    function Str(): string
    {
      message
    }
  }

  // `WhatToWatchError.__init__`: the user message falls back to the message
  // when it is missing or empty.
  function NewError(kind: ErrorKind, message: string, userMessage: Option<string>): (e: AppError)
    ensures e.kind == kind && e.Str() == message
    ensures userMessage.Some? && userMessage.value != [] ==> e.userMessage == userMessage.value
    ensures userMessage.None? || userMessage.value == [] ==> e.userMessage == message
  {
    AppError(kind, message, if userMessage.Some? && userMessage.value != [] then userMessage.value else message)
  }

  // `InsufficientDataError(message, required, actual)`.
  function InsufficientDataError(message: string, required: int, actual: int): (e: AppError)
    ensures e.kind == InsufficientData(required, actual) && e.Str() == message
    ensures Contains(e.userMessage, IntToString(required)) && Contains(e.userMessage, IntToString(actual))
  {
    var r := IntToString(required);
    var a := IntToString(actual);
    var um := "Need at least " + (r + (" items, but only have " + a));
    ContainsPrefix(r, " items, but only have " + a);
    ContainsGrows("Need at least ", r + (" items, but only have " + a), "", r);
    ContainsSuffix(" items, but only have ", a);
    ContainsGrows("Need at least " + r, " items, but only have " + a, "", a);
    assert "Need at least " + (r + (" items, but only have " + a)) + "" == um;
    assert "Need at least " + r + (" items, but only have " + a) + "" == um;
    NewError(InsufficientData(required, actual), message, Some(um))
  }

  // `RateLimitError(retry_after)`.
  function RateLimitError(retryAfter: int): (e: AppError)
    ensures e.kind == RateLimit(retryAfter)
    ensures Contains(e.userMessage, IntToString(retryAfter) + " seconds")
    ensures Contains(e.Str(), IntToString(retryAfter) + " seconds")
  {
    var n := IntToString(retryAfter);
    var msg := "Rate limit exceeded, retry after " + (n + " seconds");
    var um := "Please wait " + ((n + " seconds") + " before trying again");
    ContainsSuffix("Rate limit exceeded, retry after ", n + " seconds");
    ContainsPrefix(n + " seconds", " before trying again");
    ContainsGrows("Please wait ", (n + " seconds") + " before trying again", "", n + " seconds");
    assert "Please wait " + ((n + " seconds") + " before trying again") + "" == um;
    NewError(RateLimit(retryAfter), msg, Some(um))
  }
}
