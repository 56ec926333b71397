/** Milliseconds, and the offset of Korean time, which has no daylight saving. */
module KstTime {
  const MINUTE_MS := 60000
  const HOUR_MS := 60 * MINUTE_MS
  const DAY_MS := 24 * HOUR_MS
  const KST_OFFSET_MS := 9 * HOUR_MS
}
