// The deterministic decision whether to ask the user questions before recommending.
module Policy {
  const MinRatedFilms: int := 15
  const MinCoverage: real := 0.55
  const MinSimLike: real := 0.18

  const FewRatingsReason: string := "Мало оценённых фильмов — хочу уточнить предпочтения."
  const CoverageReason: string := "Пока не на все фильмы есть смысловые вектора — уточню настроение."
  const WeakSignalReason: string := "Сигнал вкуса слабый — уточню, что хочется сегодня."

  // `should_ask_questions`: the first of the three tests that fails decides the reason.
  function ShouldAskQuestions(ratedFilmsCount: int, coverage: real, avgSimLike: real): (r: (bool, string))
    ensures ratedFilmsCount < MinRatedFilms ==> r == (true, FewRatingsReason)
    ensures ratedFilmsCount >= MinRatedFilms && coverage < MinCoverage ==> r == (true, CoverageReason)
    ensures ratedFilmsCount >= MinRatedFilms && coverage >= MinCoverage && avgSimLike < MinSimLike ==> r == (true, WeakSignalReason)
    ensures r == (false, "") <==> ratedFilmsCount >= MinRatedFilms && coverage >= MinCoverage && avgSimLike >= MinSimLike
    ensures r.0 <==> r.1 != ""
  {
    if ratedFilmsCount < MinRatedFilms then (true, FewRatingsReason)
    else if coverage < MinCoverage then (true, CoverageReason)
    else if avgSimLike < MinSimLike then (true, WeakSignalReason)
    else (false, "")
  }
}
