/** The historical data the engine runs over: one entry per calendar year,
    from FIRST_YEAR to 2020 inclusive. The tables themselves are not part
    of the model; every operation takes them as sequences of length YEARS. */
module Series {
  const FIRST_YEAR: nat := 1871
  const YEARS: nat := 2020 - FIRST_YEAR + 1
}
