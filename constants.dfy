// The application-wide limits and defaults the modelled code reads.
module Constants {
  const RecommendRateLimitSeconds: int := 60
  const DefaultRecommendationCount: int := 3
  const DefaultRecentDays: int := 60

  const MaxReviewLength: int := 5000
  const MaxRating: real := 5.0
  const MinRating: real := 0.0
  const MaxMovieQueryLength: int := 200
  const MaxAvoidPatternLength: int := 100

  const EmbeddingJobBatchSize: int := 10
  const TasteProfileRefreshInterval: int := 10
}
