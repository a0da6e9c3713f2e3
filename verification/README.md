# Fortuna conjunction finder — a Dafny model

Fortuna scans a time window one minute at a time. At each minute it computes the astrological
Part of Fortune (Moon + Ascendant − Sun, normalised into [0, 360)) and locates its house
among the twelve house cusps. It then reports every one of the seven tracked bodies (Sun
through Saturn) that is in conjunction with the Fortune point. A body is in conjunction when
its shortest-arc orb to the point is at most 6 degrees and it is in the same zodiac sign. In
exact mode (`'Y'`) only orbs of at most 1 degree are reported.

The model keeps the program's decision logic and drops the ephemeris:

- `Zodiac`: `get_zodiac_sign`. The sign index is `int(longitude / 30) % 12`, where Python's
  `int` truncates toward zero and `%` returns a non-negative remainder.
- `Angles`: the `degnorm` normalisation into [0, 360), given by its contract, and the
  shortest-arc orb.
- `Conjunction`: the Part of Fortune, and the per-body gate together with the mode filter.
- `Houses`: `find_house`. It accepts a 12- or 13-entry cusp list, checks the twelve cyclic
  half-open intervals in order, and returns the first one that matches.
- `Scanner`: the ordered body positions, the per-minute body loop and the inclusive
  one-minute scan loop. Each printed line becomes an `Event` record.
- `Wrappers`: `Option` and `Result`.

The ephemeris is an input: a total function from an integer minute to a `Sky`. A `Sky` holds
the body longitudes, the cusp list and the Ascendant for the observer's location. Longitudes
are exact `real`s, and time is counted in whole minutes.

Three behaviours of the code that the model keeps as written:

- Sign bucketing uses truncation, not floor. The two agree for non-negative longitudes
  (`Zodiac.SignMatchesFloorWhenNonNegative`). They differ on (−30, 0), where truncation gives
  Aries and floor gives Pisces (`Zodiac.SignTruncatesBelowZero`). Adding whole turns is
  guaranteed to keep the sign only for non-negative longitudes (`Zodiac.SignPeriodic`,
  `Zodiac.SignNotPeriodicBelowZero`).
- When no interval matches, `find_house` returns `None`, and the model keeps `None`.
  However, `Houses.FindHouseTotal` proves this outcome never occurs: for any twelve real
  cusps and any real longitude, some interval matches, whether or not the cusps ascend. The
  `None` branch is dead code.
- A cusp list of the wrong length raises `ValueError` inside the loop. The model treats this
  as a failure that ends the scan (`ScanResult.failure`). Lines printed for earlier minutes
  stand, because output is streamed (`Scanner.ScanStopsAtFirstBadMinute`). The failing
  minute prints nothing, because the house is located before the body loop runs.

## Model

| member | source | states |
|---|---|---|
| Zodiac.Trunc | fortuna.py:32 | `int()` on a real truncates toward zero: the result is the integer at most 1 away from x, on zero's side of it |
| Zodiac.SignIndex | fortuna.py:32 | the sign index is always in 0..11, and for a longitude in [0, 360) it is the 30-degree bucket that holds the longitude |
| Zodiac.ZodiacSign | fortuna.py:27-33 | the sign is one of the twelve names; [0, 30) is Aries and [330, 360) is Pisces |
| Zodiac.SignNamesDistinct | fortuna.py:28-31 | there are twelve sign names and no two are equal |
| Zodiac.SameSignIff | fortuna.py:27-33 | two longitudes have equal sign names exactly when they have equal sign indices |
| Zodiac.SignMatchesFloorWhenNonNegative | fortuna.py:32 | for non-negative longitudes, truncation gives the same index as floor-based bucketing |
| Zodiac.SignTruncatesBelowZero | fortuna.py:32 | on (−30, 0), truncation gives Aries while floor-based bucketing gives Pisces |
| Zodiac.SignShiftOneTurn | fortuna.py:32 | adding one whole turn to a non-negative longitude keeps its sign |
| Zodiac.SignPeriodic | fortuna.py:32 | adding any number k ≥ 0 of whole turns to a non-negative longitude keeps its sign |
| Zodiac.SignNotPeriodicBelowZero | fortuna.py:32 | below zero, subtracting a turn can change the sign: 10 is Aries but −350 is Taurus |
| Angles.DegNorm | fortuna.py:98 | `degnorm` returns a value in [0, 360) that differs from its input by a whole number of turns |
| Angles.DegNormUnique | fortuna.py:98 | the normalised value is the only value in [0, 360) with the same direction as the input |
| Angles.DegNormIdempotent | fortuna.py:98 | normalising twice equals normalising once, and values already in [0, 360) are unchanged |
| Angles.Orb | fortuna.py:103-105 | for two longitudes in [0, 360), the orb lies in [0, 180] |
| Angles.OrbSymmetric | fortuna.py:103-105 | the orb does not depend on which point comes first |
| Angles.OrbIsShortestArc | fortuna.py:103-105 | no path between the two directions, with any number of extra turns, is shorter than the orb, and some path with at most one extra turn has exactly that length |
| Angles.OrbZeroIff | fortuna.py:103-105 | two longitudes in [0, 360) have orb 0 exactly when they are equal |
| Conjunction.FortuneLongitude | fortuna.py:97-98 | the Fortune point is in [0, 360) and has the direction of Moon + Ascendant − Sun |
| Conjunction.FortuneDependsOnElongation | fortuna.py:97-98 | rotating Sun and Moon by the same angle leaves the Fortune point unchanged |
| Conjunction.FortuneIgnoresWholeTurns | fortuna.py:97-98 | adding whole turns to the Ascendant leaves the Fortune point unchanged |
| Conjunction.WideModeEmitsCandidates | fortuna.py:107-119 | in mode `'N'`, a line is printed exactly when the orb is at most 6 and the sign names are equal |
| Conjunction.ExactModeEmits | fortuna.py:107-121 | in mode `'Y'`, a line is printed exactly when the orb is at most 1 and the sign names are equal |
| Conjunction.OtherModesSilent | fortuna.py:118-121 | a mode other than `'N'` or `'Y'` prints nothing |
| Conjunction.ExactWithinWide | fortuna.py:118-121 | whatever exact mode prints, wide mode prints too |
| Conjunction.EmitsOnlyCandidates | fortuna.py:107-121 | in any mode, a printed body has orb at most 6 and the Fortune point's sign |
| Conjunction.SameSignOrbIsPlainDistance | fortuna.py:103-107 | for two longitudes in [0, 360) with the same sign, the orb is the plain difference, below 30 |
| Conjunction.CrossSignNotEmitted | fortuna.py:103-107 | Fortune 359 and a body at 2 have orb 3 but are in Pisces and Aries, so no mode prints them |
| Conjunction.TaurusExample | fortuna.py:103-121 | Fortune 45 and a body at 46.5 have orb 1.5, so wide mode prints them and exact mode does not |
| Houses.CuspLongitudes | fortuna.py:57-62 | a length other than 12 or 13 gives an error naming the length; otherwise the result is twelve cusps, with the leading slot of a 13-entry list dropped |
| Houses.ScanHouses | fortuna.py:64-75 | the scan from interval i returns the first interval that holds the longitude, or None when no remaining interval holds it |
| Houses.FindHouse | fortuna.py:55-75 | fails exactly on a cusp list of the wrong length; otherwise returns a house h in 1..12 whose interval holds the longitude and no earlier interval does, or None only when no interval holds it |
| Houses.FindHouseDropsPlaceholder | fortuna.py:57-60 | a 13-entry list gives the same result as the 12-entry list without its first entry |
| Houses.MissedPrefix | fortuna.py:64-73 | if the first k intervals all miss the longitude, the comparison "longitude < cusp" cannot switch on from cusp 0 to cusp k, and the cusps ascend strictly when that comparison is the same at both ends |
| Houses.SomeHouseHolds | fortuna.py:64-73 | for any twelve cusps, every longitude lies in some interval |
| Houses.FindHouseTotal | fortuna.py:64-75 | every accepted cusp list gives a house for every longitude, so `None` never occurs |
| Houses.HouseUnique | fortuna.py:64-73 | for cusps that ascend with a single wrap, at most one interval holds a given longitude |
| Houses.HousesPartition | fortuna.py:64-75 | for such cusps, the longitude lies in the house `find_house` returns and in no other |
| Scanner.BodiesInOrder | fortuna.py:35-43 | every body is tracked, and the visiting order is Sun, Moon, Mercury, Venus, Mars, Jupiter, Saturn |
| Scanner.Positions | fortuna.py:45-53 | the positions give every body its longitude, in the fixed body order |
| Scanner.BodyEventsSpec | fortuna.py:102-121 | the body loop prints a line for a listed body exactly when the body passes the gate, and each line records that body, the Fortune point and the orb |
| Scanner.BodyEventsOrdered | fortuna.py:102-121 | the lines of one minute come out in body order |
| Scanner.MomentEvents | fortuna.py:88-121 | a minute fails exactly when its cusp list has the wrong length, with the error that `find_house` raises |
| Scanner.MomentFailsAsFindHouse | fortuna.py:100 | a minute fails exactly when `find_house` fails on the Fortune point, with the same error |
| Scanner.MomentEventsSpec | fortuna.py:100-121 | an accepted minute prints one line for each body that passes the gate and nothing else, all stamped with that minute and in body order |
| Scanner.FortuneHouseKnown | fortuna.py:100 | an accepted cusp list places the Fortune point in a house from 1 to 12 |
| Scanner.MomentHouseKnown | fortuna.py:100-115 | every line of an accepted minute reports a house from 1 to 12 |
| Scanner.RunFailsIff | fortuna.py:81-122 | the minute loop reaches the end of the window exactly when no minute in it fails |
| Scanner.RunEventsFrom | fortuna.py:81-122 | every line of the loop comes from a minute in the window that did not fail |
| Scanner.RunCollects | fortuna.py:81-122 | a loop that reaches the end prints every line of every minute in the window |
| Scanner.RunStopsAtFirstFailure | fortuna.py:81-122 | the loop stops at the first failing minute with that minute's error; its lines come only from earlier minutes and are exactly the lines of the loop that ends just before that minute, which itself runs to the end |
| Scanner.RunChronological | fortuna.py:81-122 | when each minute's lines are stamped with that minute and ordered, the loop's lines are ordered |
| Scanner.RunMonotone | fortuna.py:81-122 | two loops whose minutes fail in the same way stop in the same way, and if each minute of the first prints a subset of the second's lines, so does the whole loop |
| Scanner.RunLoop | fortuna.py:78-122 | the cursor visits start, start + 1, … in order: end − start + 1 minutes when not aborted, none when end < start, and it stops at the first failing minute |
| Scanner.MinuteFails | fortuna.py:100 | a minute of the scan fails exactly when its cusp list is rejected, with an error naming the list's length |
| Scanner.ScanFailsIff | fortuna.py:77-122 | the scan runs to the end exactly when every minute in the window has a 12- or 13-entry cusp list |
| Scanner.ScanSound | fortuna.py:77-122 | every line falls inside the window, comes from a minute whose cusp list is accepted, carries that minute's Fortune-point house, and reports a body that passes the gate with that minute's Fortune point, body longitude and orb |
| Scanner.ScanChronological | fortuna.py:77-122 | lines come out by minute, and within a minute in the fixed body order |
| Scanner.ScanComplete | fortuna.py:77-122 | when the scan is not aborted, every (minute, body) pair that passes the gate has its line printed |
| Scanner.ScanStopsAtFirstBadMinute | fortuna.py:77-122 | a rejected cusp list aborts the scan at the first minute that has one, with an error naming its length; the lines are exactly those of the unaborted scan ending just before that minute, so every line of the earlier minutes is printed and none from later ones |
| Scanner.ExactScanWithinWide | fortuna.py:77-122 | exact mode aborts wherever wide mode does, and every line it prints wide mode prints too |
| Scanner.OtherModeScanSilent | fortuna.py:118-121 | a mode other than `'N'` or `'Y'` prints nothing in the whole window |
| Scanner.ScanOrbBounds | fortuna.py:103-121 | with ephemeris longitudes in [0, 360), every line has orb in [0, 6], orb at most 1 in exact mode, and the body in the Fortune point's sign |
| Scanner.Scan | fortuna.py:77-122 | over a duration in days, the scan visits start through start + 1440·days in order: 1440·days + 1 minutes when not aborted, none for a negative duration, and on abort it stops at the first minute with a rejected cusp list |

## Left out

- Ephemeris lookups (`get_longitude`, `swe.calc_ut`, `swe.houses`, `swe.julday`, `swe.set_ephe_path`): these are foreign numeric code. Their results are the `Sky` input for each minute.
- The `EPHE_PATH` and `house_system` settings: they only configure the ephemeris, which is an input here.
- Floating-point rounding and the `hour_float` conversion: longitudes are exact reals, and time is counted in whole minutes.
- `degnorm`: modelled only by its contract (a result in [0, 360) with the same direction as the input), not by its floating-point implementation.
- Argument parsing, `strptime` and its error message, and the parameter block printed by `main`: these are input/output. `Scanner.Scan` takes the start minute and the duration in days directly. It computes the end as start + 1440·days, as `main` does.
- Output formatting: the degree within the sign (`% 30`), the two-decimal rounding, `strftime`, the Sun and Moon columns, and `print`. A line is the `Event` record instead: minute, Fortune point, house, body, body longitude and orb. The Sun and Moon columns can be recomputed from the `Sky` of the event's minute.
- In the program, the `ValueError` that `find_house` raises inside the scan is caught by `main` and reported as a date/time parse error. The model stops at the failure recorded in `ScanResult`; the message is presentation.
- Scanner.Scan: minutes are unbounded integers, so the model does not cover the calendar range of Python's `datetime` (years 1 to 9999). In the program, a duration that pushes the end date out of that range, or one beyond `timedelta`'s limit of 999999999 days, raises `OverflowError`, which `main` does not catch, so no scan runs. Advancing the cursor past 9999-12-31 23:59 raises the same error. On those inputs the model still counts 1440·days + 1 visited minutes.
