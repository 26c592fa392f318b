# A Dafny model of the jamaica-dev-kit core

jamaica-dev-kit is a set of Jamaica-specific helper libraries and two small
web services. This project models their logic in Dafny and proves properties
of that model:

- the Tax Registration Number (TRN) check digit, validation and formatting;
- the phone-number normaliser for area codes 876 and 658, its four output
  forms and the carrier rules;
- the informal postal-address parser and normaliser, and the forward
  geocoder of the addressing service, a five-tier cascade over a location
  index;
- the public-holiday calendar: Easter, the n-th weekday of a month, the
  Sunday-substitution rule, business days and the next holiday;
- Jamaican-dollar formatting, parsing, conversion and General Consumption
  Tax (GCT);
- PAYE income tax, NIS, NHT, education tax, HEART/NTA and payroll;
- the government fee schedule and its search;
- the assistant service's in-memory session store and its fee-structure
  normaliser;
- the directories: parishes, the coordinate-to-parish resolver, health
  facilities, schools, places, constituencies, emergency services, banks and
  transport.

Each source file has one module:

| module | file |
|---|---|
| `Trn` | `trn.dfy` |
| `Phone` | `phone.dfy` |
| `Addresses` | `addresses.dfy` |
| `Geocoder` | `geocoder.dfy` |
| `Calendar`, `Holidays` | `calendar.dfy`, `holidays.dfy` |
| `Currency` | `currency.dfy` |
| `Tax` | `tax.dfy` |
| `GovFees` | `govfees.dfy` |
| `Sessions` | `sessions.dfy` |
| `Parishes` | `parishes.dfy` |
| `ParishLookup` | `parishlookup.dfy` |
| `Health` | `health.dfy` |
| `Schools` | `schools.dfy` |
| `Places` | `places.dfy` |
| `Constituencies` | `constituencies.dfy` |
| `Emergency` | `emergency.dfy` |
| `Banks` | `banks.dfy` |
| `Transport` | `transport.dfy` |
| `FeeItems` | `feeitems.dfy` (only `_parse_fee_items` of the assistant service) |

Shared pieces live in four more modules:

- `Wrappers`: `Option`, `Result` and the Python exceptions that the modelled
  code raises.
- `Strings`: Python's `strip`, `lower`, `upper`, `in`, `join` and `split`.
  Case mapping covers ASCII letters only; whitespace is the full set that
  Python's `str.isspace()` accepts.
- `Lookups`: comprehension filters, first-match loops, dictionary building
  and count-by-key loops, with their lemmas.
- `Geo`: coordinates.

Where the library code mutates state, the model does too:

- `SessionStore` is a class whose `sessions` map its methods update.
- Loops become methods with invariants, each proved equal to a
  specification function: the TRN retry, the address scan, the index
  build, Sunday substitution, working-day counting, grouping, the
  nearest-point scans, the first-match loops, the count-by-key loops, the
  fee search and the fee normaliser.
- Everything else is functions and lemmas.

## Model

| member | source | states |
|---|---|---|
| Trn.WeightedSumSamePrefix | toolkit/jamaica-trn/python/jamaica_trn/__init__.py:81 | the weighted sum with weights 3,7,1,3,7,1,3,7 depends only on the first eight digits |
| Trn.Unformat | toolkit/jamaica-trn/python/jamaica_trn/__init__.py:26-38 | the raw form is the stripped input with every dash removed; it holds no dash |
| Trn.CheckDigit | toolkit/jamaica-trn/python/jamaica_trn/__init__.py:62-85 | None unless the input is exactly eight digits; otherwise the digit 0-9 that brings the weighted sum to a multiple of 11, or None when that digit would be 10 |
| Trn.IsValid | toolkit/jamaica-trn/python/jamaica_trn/__init__.py:88-112 | true exactly when the raw form is nine digits and the ninth equals the check digit of the first eight |
| Trn.CheckDigitMatches | toolkit/jamaica-trn/python/jamaica_trn/__init__.py:81-85 | a digit is the check digit of a sum exactly when adding it (weight 1) makes the sum a multiple of 11 |
| Trn.Format | toolkit/jamaica-trn/python/jamaica_trn/__init__.py:41-59 | NNN-NNN-NNN from the raw form, and ValueError when the raw form is not nine digits |
| Trn.UnformatOfDigits | toolkit/jamaica-trn/python/jamaica_trn/__init__.py:26-38 | a string of digits is its own raw form |
| Trn.UnformatGrouped | toolkit/jamaica-trn/python/jamaica_trn/__init__.py:41-59 | unformatting the formatted text gives back its nine digits |
| Trn.FormatRoundTrip | toolkit/jamaica-trn/python/jamaica_trn/__init__.py:41-59 | unformat(format(t)) is the nine digits of t's raw form, equal to that raw form when it has nine characters |
| Trn.FormatPreservesValidity | toolkit/jamaica-trn/python/jamaica_trn/__init__.py:88-112 | a formatted TRN is valid exactly when the original is |
| Trn.FormatIdempotent | toolkit/jamaica-trn/python/jamaica_trn/__init__.py:41-59 | formatting a formatted TRN gives it back |
| Trn.AppendCheckDigitValid | toolkit/jamaica-trn/python/jamaica_trn/__init__.py:115-136 | an eight-digit prefix followed by its check digit is a valid TRN |
| Trn.GenerateTestTrn | toolkit/jamaica-trn/python/jamaica_trn/__init__.py:115-136 | the result, when there is one, is a valid nine-digit TRN built from the first drawn prefix that has a check digit |
| Phone.StripToDigits | toolkit/jamaica-phone/python/jamaica_phone/__init__.py:59-64 | the digits of the trimmed input, in order, and whether the trimmed input starts with '+' |
| Phone.ExtractTenDigits | toolkit/jamaica-phone/python/jamaica_phone/__init__.py:67-98 | ten digits exactly when the input's digits are ten (no '+') or "1" and ten more (with or without '+'), the area code is 876 or 658 and the exchange starts with 2-9 |
| Phone.TenDigitsOf | toolkit/jamaica-phone/python/jamaica_phone/__init__.py:73-98 | the length, country-code, area-code and exchange checks on the digits and the '+' flag |
| Phone.ParsePhone | toolkit/jamaica-phone/python/jamaica_phone/__init__.py:112-128 | None for an invalid number; otherwise country code "1", the three-digit area code and the seven-digit local number of the extracted digits |
| Phone.IsValidJamaicanNumber | toolkit/jamaica-phone/python/jamaica_phone/__init__.py:104-109 | valid exactly when the ten digits can be extracted |
| Phone.FormatLocal | toolkit/jamaica-phone/python/jamaica_phone/__init__.py:131-141 | NXX-XXXX from the local number, ValueError for an invalid number |
| Phone.FormatNational | toolkit/jamaica-phone/python/jamaica_phone/__init__.py:144-154 | ValueError exactly for a number that does not parse; otherwise "(" + the first three of the ten digits + ") " + the next three + "-" + the last four |
| Phone.FormatE164 | toolkit/jamaica-phone/python/jamaica_phone/__init__.py:157-166 | +1 followed by the ten digits, twelve characters, ValueError for an invalid number |
| Phone.FormatInternational | toolkit/jamaica-phone/python/jamaica_phone/__init__.py:169-179 | ValueError exactly for a number that does not parse; otherwise "+1 (" + the first three of the ten digits + ") " + the next three + "-" + the last four |
| Phone.GetCarrier | toolkit/jamaica-phone/python/jamaica_phone/__init__.py:182-229 | unknown for an invalid number and for the 658 area code; otherwise the carrier of the 876 exchange |
| Phone.ExchangeCarrier | toolkit/jamaica-phone/python/jamaica_phone/__init__.py:208-229 | on the exchange digits: 6/7/9 landline, 2/8 Digicel, 3 then 5-9 Digicel, 3 then 0-4 Flow, 4/5 Flow |
| Phone.ExchangeDigits | toolkit/jamaica-phone/python/jamaica_phone/__init__.py:208-220 | the integer value of the three exchange digits gives back the first and second digit |
| Phone.IsAreaCode876 | toolkit/jamaica-phone/python/jamaica_phone/__init__.py:232-235 | true exactly when the number yields ten digits starting with 876, and then it is a valid Jamaican number |
| Phone.IsAreaCode658 | toolkit/jamaica-phone/python/jamaica_phone/__init__.py:238-241 | true exactly when the number yields ten digits starting with 658, and then it is a valid Jamaican number |
| Phone.AreaCodesPartition | toolkit/jamaica-phone/python/jamaica_phone/__init__.py:232-241 | a valid number has exactly one of the two area codes, an invalid one neither |
| Phone.IsMobile | toolkit/jamaica-phone/python/jamaica_phone/__init__.py:244-263 | true for a Flow or Digicel exchange or any 658 number, and only for valid numbers |
| Phone.DigitsOfPieces | toolkit/jamaica-phone/python/jamaica_phone/__init__.py:63 | removing the non-digits from separators and digit groups keeps the groups' digits in order |
| Phone.ExtractAgain | toolkit/jamaica-phone/python/jamaica_phone/__init__.py:67-98 | text whose digits are a valid number's ten digits, optionally after a "1", yields the same ten digits |
| Phone.StripToDigitsUnspaced | toolkit/jamaica-phone/python/jamaica_phone/__init__.py:59-64 | text without surrounding whitespace is reduced to its own digits |
| Phone.GroupedTenDigits | toolkit/jamaica-phone/python/jamaica_phone/__init__.py:144-154 | the digits of the grouped national layout are the ten digits |
| Phone.PlusOneDigits | toolkit/jamaica-phone/python/jamaica_phone/__init__.py:157-166 | a "+1" prefix adds a "1" in front of the digits |
| Phone.NationalRoundTrip | toolkit/jamaica-phone/python/jamaica_phone/__init__.py:144-154 | parsing the national form gives back the parsed number |
| Phone.E164RoundTrip | toolkit/jamaica-phone/python/jamaica_phone/__init__.py:157-166 | parsing the E.164 form gives back the parsed number |
| Phone.InternationalRoundTrip | toolkit/jamaica-phone/python/jamaica_phone/__init__.py:169-179 | parsing the international form gives back the parsed number |
| Phone.LocalDoesNotParse | toolkit/jamaica-phone/python/jamaica_phone/__init__.py:131-141 | the local form has seven digits only and does not parse |
| Phone.LocalDigits | toolkit/jamaica-phone/python/jamaica_phone/__init__.py:131-141 | the digits of NXX-XXXX are the seven local digits |
| Addresses.ParishNamesAreParishes | toolkit/jamaica-addresses/python/jamaica_addresses/__init__.py:36-51 | fourteen canonical parish names, each a parish |
| Addresses.AliasOf | toolkit/jamaica-addresses/python/jamaica_addresses/__init__.py:54-104 | every alias resolves to a canonical parish |
| Addresses.ShortAliasesAreAliases | toolkit/jamaica-addresses/python/jamaica_addresses/__init__.py:315-316 | the aliases of at most five characters are aliases |
| Addresses.ParishOfLower | toolkit/jamaica-addresses/python/jamaica_addresses/__init__.py:162-163 | the lower-cased canonical name resolves to its parish |
| Addresses.SectorDigitsAt | toolkit/jamaica-addresses/python/jamaica_addresses/__init__.py:144 | the digits after "Kingston" and optional whitespace are one or two digits |
| Addresses.SearchSectorDigits | toolkit/jamaica-addresses/python/jamaica_addresses/__init__.py:144 | the first sector match yields one or two digits |
| Addresses.SearchSectorDigitsValue | toolkit/jamaica-addresses/python/jamaica_addresses/__init__.py:144 | the sector number is the value of the matched digits, found exactly when the digits are |
| Addresses.SearchSectorFound | toolkit/jamaica-addresses/python/jamaica_addresses/__init__.py:144 | when `search` finds a sector, it is the one at the leftmost position where the pattern matches |
| Addresses.SearchSectorNone | toolkit/jamaica-addresses/python/jamaica_addresses/__init__.py:144 | `search` finds nothing exactly when the pattern matches at no position from the start on |
| Addresses.SearchKingstonSectorSpec | toolkit/jamaica-addresses/python/jamaica_addresses/__init__.py:144 | `search` returns the leftmost match from the start position, and None exactly when no position matches |
| Addresses.SaintMatchEnd | toolkit/jamaica-addresses/python/jamaica_addresses/__init__.py:154 | a "Saint"/"St" match followed by whitespace ends inside the text |
| Addresses.NormalizeSaintNoSpace | toolkit/jamaica-addresses/python/jamaica_addresses/__init__.py:152-154 | text without whitespace is left unchanged |
| Addresses.NormalizeSaintLeading | toolkit/jamaica-addresses/python/jamaica_addresses/__init__.py:152-154 | a leading "Saint " becomes "St. " |
| Addresses.ResolveParish | toolkit/jamaica-addresses/python/jamaica_addresses/__init__.py:157-167 | the result, when there is one, is a canonical parish |
| Addresses.DistrictMatch | toolkit/jamaica-addresses/python/jamaica_addresses/__init__.py:148 | "District of X" yields a non-empty X ending the segment |
| Addresses.StreetNumberMatch | toolkit/jamaica-addresses/python/jamaica_addresses/__init__.py:149 | a street number starts with a digit and begins the segment |
| Addresses.Segments | toolkit/jamaica-addresses/python/jamaica_addresses/__init__.py:197 | the comma-separated segments are at least one, each stripped |
| Addresses.SegmentParishFacts | toolkit/jamaica-addresses/python/jamaica_addresses/__init__.py:202-215 | a segment with a Kingston sector gives Kingston and a sector 1-20; any other result is a parish |
| Addresses.LastWhere | toolkit/jamaica-addresses/python/jamaica_addresses/__init__.py:201-215 | the right-most index whose segment passes the test, -1 when none does |
| Addresses.LastParishIndex | toolkit/jamaica-addresses/python/jamaica_addresses/__init__.py:201-215 | the right-most segment naming a parish or a Kingston sector |
| Addresses.DistrictStep | toolkit/jamaica-addresses/python/jamaica_addresses/__init__.py:225-228 | the district is taken from the first remaining segment exactly when it matches, and that segment is consumed |
| Addresses.UnitStep | toolkit/jamaica-addresses/python/jamaica_addresses/__init__.py:231-232 | a unit is the first remaining segment when it starts with a unit word |
| Addresses.NumberStep | toolkit/jamaica-addresses/python/jamaica_addresses/__init__.py:235-240 | a street number starts with a digit and consumes the first segment |
| Addresses.TakePrefixesFields | toolkit/jamaica-addresses/python/jamaica_addresses/__init__.py:224-240 | district, unit and street number come only from the leading segments, in that order |
| Addresses.TakePrefixesConsumes | toolkit/jamaica-addresses/python/jamaica_addresses/__init__.py:224-240 | what is left is a suffix of the remaining segments, all of them when nothing was taken |
| Addresses.StepSuffix | toolkit/jamaica-addresses/python/jamaica_addresses/__init__.py:228 | popping the first segment leaves a suffix |
| Addresses.AssignLeftovers | toolkit/jamaica-addresses/python/jamaica_addresses/__init__.py:242-252 | the last leftover is the community; with two or more, the others joined by ", " are the street name unless one was found |
| Addresses.Remaining | toolkit/jamaica-addresses/python/jamaica_addresses/__init__.py:218 | the remaining segments are segments of the address |
| Addresses.ParseAddress | toolkit/jamaica-addresses/python/jamaica_addresses/__init__.py:179-254 | keeps the raw text; a blank address gives nothing; a Kingston sector implies parish Kingston with a sector 1-20; any parish is canonical |
| Addresses.ScanForParish | toolkit/jamaica-addresses/python/jamaica_addresses/__init__.py:199-215 | the backwards loop stops on the right-most parish segment and records its parish and sector |
| Addresses.InterpretSegments | toolkit/jamaica-addresses/python/jamaica_addresses/__init__.py:220-252 | the interpretation of the remaining segments agrees with the specification |
| Addresses.PopPrefixes | toolkit/jamaica-addresses/python/jamaica_addresses/__init__.py:224-240 | the district, unit and street-number pops agree with the specification |
| Addresses.LastWhereIsRightMost | toolkit/jamaica-addresses/python/jamaica_addresses/__init__.py:201-215 | any index with the right-most property is the one found |
| Addresses.StreetPart | toolkit/jamaica-addresses/python/jamaica_addresses/__init__.py:268-271 | a street part exactly when there is a street name |
| Addresses.ParishPart | toolkit/jamaica-addresses/python/jamaica_addresses/__init__.py:279-283 | the parish part starts with the parish |
| Addresses.NormalizedParts | toolkit/jamaica-addresses/python/jamaica_addresses/__init__.py:263-283 | at most five non-empty parts, none exactly when every field is empty, the parish part last |
| Addresses.NormalizeAddress | toolkit/jamaica-addresses/python/jamaica_addresses/__init__.py:257-285 | empty exactly when every field is empty; ends with the parish part and starts with the unit when they are present |
| Addresses.JoinEnds | toolkit/jamaica-addresses/python/jamaica_addresses/__init__.py:285 | joining non-empty parts is empty only for no parts, starts with the first and ends with the last |
| Addresses.FormatAddress | toolkit/jamaica-addresses/python/jamaica_addresses/__init__.py:383-388 | the display string is the normalised address |
| Addresses.ToNormalizedAddress | toolkit/jamaica-addresses/python/jamaica_addresses/__init__.py:347-380 | the formatted field is the normalised address; the parish defaults to "Unknown"; line 1 falls back to the community, then the raw text |
| Addresses.ResolveFromRight | toolkit/jamaica-addresses/python/jamaica_addresses/__init__.py:302-306 | the right-most resolvable segment's parish, None exactly when no segment resolves |
| Addresses.NameInside | toolkit/jamaica-addresses/python/jamaica_addresses/__init__.py:309-312 | a parish name found inside the lower-cased address is a parish and occurs there |
| Addresses.ShortAliasInside | toolkit/jamaica-addresses/python/jamaica_addresses/__init__.py:315-319 | an inline short alias gives a parish |
| Addresses.ExtractParish | toolkit/jamaica-addresses/python/jamaica_addresses/__init__.py:288-321 | None for a blank address; Kingston when a sector matches; otherwise the segment scan before the name and alias fallbacks |
| Addresses.IsKingstonAddress | toolkit/jamaica-addresses/python/jamaica_addresses/__init__.py:324-329 | true exactly when the extracted parish is Kingston or St. Andrew |
| Addresses.GetKingstonSector | toolkit/jamaica-addresses/python/jamaica_addresses/__init__.py:332-344 | the left-most "Kingston N" match decides: its number when it is 1-20, None when it is outside that range or there is no match |
| Geocoder.Lookup | apps/addressing-api/app/geocoder.py:223-224 | the entry stored under the key, None exactly when no entry has that key |
| Geocoder.PutKeys | apps/addressing-api/app/geocoder.py:165 | assigning a key adds exactly that key |
| Geocoder.PutDistinct | apps/addressing-api/app/geocoder.py:165 | assigning keeps the keys distinct, as in a dictionary |
| Geocoder.PutLookup | apps/addressing-api/app/geocoder.py:165 | after assigning, the key maps to the new location and every other key is unchanged |
| Geocoder.LastNamed | apps/addressing-api/app/geocoder.py:163-165 | the last location whose lower-cased name is the key, None exactly when none has it |
| Geocoder.IndexOfIsLastWrite | apps/addressing-api/app/geocoder.py:163-165 | the index has distinct keys and every key maps to the last location of that name |
| Geocoder.BuildIndex | apps/addressing-api/app/geocoder.py:163-165 | the loop builds the index whose lookups are last writes |
| Geocoder.NoKingston18Row | apps/addressing-api/app/geocoder.py:62-160 | no known location is named "Kingston 18" |
| Geocoder.NoKingston18Key | apps/addressing-api/app/geocoder.py:163-165 | the index has no "kingston 18" key |
| Geocoder.Hit | apps/addressing-api/app/geocoder.py:225-232 | the result dictionary carries the location's name, parish, type and coordinates and the tier's confidence |
| Geocoder.SectorKeyMatchesSector | apps/addressing-api/app/geocoder.py:237-239 | a sector key exactly when the sector pattern matches, "kingston " followed by its one or two digits |
| Geocoder.FirstKnownSegmentSpec | apps/addressing-api/app/geocoder.py:254-266 | the first segment whose lower-cased text is a key, None exactly when none is |
| Geocoder.BestUpToSpec | apps/addressing-api/app/geocoder.py:272-278 | the longest key contained in the address, the earliest of equal length, None exactly when no key is contained |
| Geocoder.LongestKnownName | apps/addressing-api/app/geocoder.py:272-278 | the loop finds the longest-earliest contained key |
| Geocoder.ParishAliasesResolve | apps/addressing-api/app/geocoder.py:23-53 | every alias in the geocoder's alias dictionary names one of the fourteen parishes |
| Geocoder.FirstAliasIn | apps/addressing-api/app/geocoder.py:179-185 | an alias entry whose alias is contained in the lower-cased address, None exactly when no entry's alias is |
| Geocoder.FirstAliasInSpec | apps/addressing-api/app/geocoder.py:182-184 | the entry returned is the first, in dictionary order, whose alias is contained in the address |
| Geocoder.ExtractParishByAlias | apps/addressing-api/app/geocoder.py:179-185 | the parish of the first contained alias, None exactly when no alias is contained |
| Geocoder.CapitalOfSpec | apps/addressing-api/app/geocoder.py:297-301 | the first capital of the parish in index order, None exactly when the parish has none |
| Geocoder.ParishFallback | apps/addressing-api/app/geocoder.py:294-311 | a fallback hit has confidence 0.3 and type parish_fallback, at the capital of the parish found by alias |
| Geocoder.SubstringHitSpec | apps/addressing-api/app/geocoder.py:272-289 | the substring tier returns the location of the longest-earliest contained key |
| Geocoder.GeocodeAddress | apps/addressing-api/app/geocoder.py:193-313 | the method returns what the tier cascade specifies |
| Geocoder.GeocodeTiers | apps/addressing-api/app/geocoder.py:219-313 | the tiers are tried in order on the normalised address |
| Geocoder.GeocodeBlank | apps/addressing-api/app/geocoder.py:213-217 | a blank address gives None; otherwise the cascade runs on the Saint-normalised text |
| Geocoder.CascadeTiers | apps/addressing-api/app/geocoder.py:219-313 | the result's confidence is 1.0, 0.85, 0.8, 0.6 or 0.3, and None only when every tier misses |
| Geocoder.GeocodeFullMatch | apps/addressing-api/app/geocoder.py:222-232 | a full-string key wins with confidence 1.0 |
| Geocoder.GeocodeSectorTier | apps/addressing-api/app/geocoder.py:237-249 | a 0.85 hit means no full match and a known sector key |
| Geocoder.SectorWithoutKeyFallsThrough | apps/addressing-api/app/geocoder.py:240 | a sector with no key in the index gives no 0.85 hit |
| Geocoder.Kingston18FallsThrough | apps/addressing-api/app/geocoder.py:141-159 | "Kingston 18" gives no 0.85 hit, as there is no such row |
| Geocoder.GeocodeSegmentTier | apps/addressing-api/app/geocoder.py:254-266 | a 0.8 hit means the earlier tiers missed and some segment is a key |
| Geocoder.GeocodeSubstringTier | apps/addressing-api/app/geocoder.py:272-289 | a 0.6 hit means the earlier tiers missed and a key is contained in the address |
| Geocoder.GeocodeFallbackTier | apps/addressing-api/app/geocoder.py:294-311 | a 0.3 hit is the capital of the parish found by alias after every other tier missed |
| Geocoder.GeocodeNone | apps/addressing-api/app/geocoder.py:313 | None means every tier missed |
| Geocoder.GeocodeNoneSearches | apps/addressing-api/app/geocoder.py:254-301 | None means no segment is a key, no key is contained, and either no parish alias occurs or the index holds no capital of the parish it names |
| Geocoder.NoKnownSegment | apps/addressing-api/app/geocoder.py:255-257 | when no segment is known, no segment's lower-cased text is a key |
| Calendar.DaysInMonth | toolkit/jamaica-holidays/python/jamaica_holidays/__init__.py:52-55 | the length of a month, 28 to 31 days, that `date(year, month, day)` checks the day against |
| Calendar.Weekday | toolkit/jamaica-holidays/python/jamaica_holidays/__init__.py:53 | `date.weekday()` lies in 0..6 |
| Calendar.NextDay | toolkit/jamaica-holidays/python/jamaica_holidays/__init__.py:123-125 | adding one day gives a real date whose day number is one more |
| Calendar.PrevDay | toolkit/jamaica-holidays/python/jamaica_holidays/__init__.py:84-85 | subtracting one day gives a real date whose day number is one less |
| Calendar.AddDays | toolkit/jamaica-holidays/python/jamaica_holidays/__init__.py:84-86 | adding n days gives a real date n day numbers later |
| Calendar.DayOfYearBounds | toolkit/jamaica-holidays/python/jamaica_holidays/__init__.py:52-55 | the day of a real date lies within its year |
| Calendar.WeekdayInMonth | toolkit/jamaica-holidays/python/jamaica_holidays/__init__.py:52-55 | within a month the weekday advances by one per day |
| Calendar.OrdinalOrder | toolkit/jamaica-holidays/python/jamaica_holidays/__init__.py:114 | the day-number order of real dates is the order of their ISO strings, and equal numbers mean equal dates |
| Calendar.IsoDate | toolkit/jamaica-holidays/python/jamaica_holidays/__init__.py:58-59 | the ISO form has ten characters with dashes at positions 4 and 7 |
| Calendar.ParseIsoDate | toolkit/jamaica-holidays/python/jamaica_holidays/__init__.py:62-63 | a parsed date is a real date of a four-digit year; anything else is a ValueError |
| Calendar.IsoRoundTrip | toolkit/jamaica-holidays/python/jamaica_holidays/__init__.py:58-63 | parsing the ISO form of a date gives the date back |
| Holidays.NoteText | toolkit/jamaica-holidays/python/jamaica_holidays/__init__.py:127-144 | a holiday has a note exactly when it was substituted or shifted (or is Heroes Day) |
| Holidays.EasterSunday | toolkit/jamaica-holidays/python/jamaica_holidays/__init__.py:29-44 | the computus gives a real date of the year between 22 March and 25 April |
| Holidays.Easter2025 | toolkit/jamaica-holidays/python/jamaica_holidays/__init__.py:218-220 | Easter 2025 is Sunday 20 April |
| Holidays.NthWeekday | toolkit/jamaica-holidays/python/jamaica_holidays/__init__.py:47-55 | the n-th given weekday of the month, in its n-th week, and always a date for n from 1 to 4 |
| Holidays.NthDayBounds | toolkit/jamaica-holidays/python/jamaica_holidays/__init__.py:53-54 | the computed day lies in the n-th week of the month |
| Holidays.HeroesDay | toolkit/jamaica-holidays/python/jamaica_holidays/__init__.py:87 | National Heroes Day is a Monday in October between the 15th and the 21st |
| Holidays.FixedHolidays | toolkit/jamaica-holidays/python/jamaica_holidays/__init__.py:71-79 | six non-moveable holidays on real dates of the year |
| Holidays.FixedHoliday | toolkit/jamaica-holidays/python/jamaica_holidays/__init__.py:72-78 | each fixed holiday is a real date of the year, not moveable, with no note |
| Holidays.MoveableFrom | toolkit/jamaica-holidays/python/jamaica_holidays/__init__.py:89-99 | four moveable holidays built from Easter and Heroes Day |
| Holidays.MoveableHoliday | toolkit/jamaica-holidays/python/jamaica_holidays/__init__.py:83-98 | Ash Wednesday 46 days before Easter, Good Friday 2 days before, Easter Monday the day after, then Heroes Day, all moveable |
| Holidays.MoveableFromFacts | toolkit/jamaica-holidays/python/jamaica_holidays/__init__.py:82-99 | the moveable holidays are real dates after any bound that Ash Wednesday and Heroes Day exceed |
| Holidays.MoveableHolidaysFacts | toolkit/jamaica-holidays/python/jamaica_holidays/__init__.py:82-99 | four moveable holidays, all real dates in the year or later |
| Holidays.InsertMultiset | toolkit/jamaica-holidays/python/jamaica_holidays/__init__.py:114 | inserting one holiday into the sorted list adds exactly that holiday |
| Holidays.InsertSorted | toolkit/jamaica-holidays/python/jamaica_holidays/__init__.py:114 | inserting keeps the list in date order |
| Holidays.SortByDateFacts | toolkit/jamaica-holidays/python/jamaica_holidays/__init__.py:114 | `sorted(..., key=date)` gives a sorted permutation of the same length |
| Holidays.TakenFromShrinks | toolkit/jamaica-holidays/python/jamaica_holidays/__init__.py:124-125 | stepping past a taken day leaves fewer taken days ahead, so the inner loop ends |
| Holidays.FirstFree | toolkit/jamaica-holidays/python/jamaica_holidays/__init__.py:123-126 | the first free day on or after a date is a real date that is not taken |
| Holidays.FirstFreeSkipsTaken | toolkit/jamaica-holidays/python/jamaica_holidays/__init__.py:124-125 | every day the inner loop steps over is taken |
| Holidays.FindFree | toolkit/jamaica-holidays/python/jamaica_holidays/__init__.py:124-125 | the inner `while` loop stops on the first free day |
| Holidays.ObserveFacts | toolkit/jamaica-holidays/python/jamaica_holidays/__init__.py:118-148 | one holiday keeps name and flag, gets a free day, and moves strictly later exactly when it is a Sunday or its day is taken |
| Holidays.Pass | toolkit/jamaica-holidays/python/jamaica_holidays/__init__.py:118-148 | the pass yields one holiday per input |
| Holidays.PassAt | toolkit/jamaica-holidays/python/jamaica_holidays/__init__.py:118-148 | the i-th output is the step applied to the i-th input given the days taken before it |
| Holidays.PassFresh | toolkit/jamaica-holidays/python/jamaica_holidays/__init__.py:118-148 | the pass never uses a taken day nor the same day twice |
| Holidays.SubstituteFrom | toolkit/jamaica-holidays/python/jamaica_holidays/__init__.py:118-150 | the substitution pass yields one holiday per input |
| Holidays.SubstituteFacts | toolkit/jamaica-holidays/python/jamaica_holidays/__init__.py:118-148 | the i-th holiday keeps name and flag, avoids the days taken before it, stays put on a free weekday and otherwise moves strictly later |
| Holidays.SubstituteDistinct | toolkit/jamaica-holidays/python/jamaica_holidays/__init__.py:118-150 | the substituted holidays are on pairwise distinct real days outside the observed set |
| Holidays.SortValid | toolkit/jamaica-holidays/python/jamaica_holidays/__init__.py:114 | sorting keeps every date real |
| Holidays.ObserveOne | toolkit/jamaica-holidays/python/jamaica_holidays/__init__.py:119-148 | the loop body for one holiday does what the specification of one step says |
| Holidays.ApplySundaySubstitution | toolkit/jamaica-holidays/python/jamaica_holidays/__init__.py:107-150 | the loop equals the substitution function over the sorted holidays |
| Holidays.SundaySubstitutionFacts | toolkit/jamaica-holidays/python/jamaica_holidays/__init__.py:107-150 | as many holidays as given, on distinct real days, the i-th being the i-th in date order under the same name and flag on that day or later |
| Holidays.FixedObservedFacts | toolkit/jamaica-holidays/python/jamaica_holidays/__init__.py:163 | the substituted fixed holidays are six real, non-moveable days of the year or later |
| Holidays.AssembleFacts | toolkit/jamaica-holidays/python/jamaica_holidays/__init__.py:165-166 | sorting fixed and moveable together keeps every holiday, in date order, and counts the moveable ones from both |
| Holidays.GetHolidaysFacts | toolkit/jamaica-holidays/python/jamaica_holidays/__init__.py:158-166 | ten holidays in date order, four of them moveable, all real days of the year or later |
| Holidays.MoveablesConcat | toolkit/jamaica-holidays/python/jamaica_holidays/__init__.py:165 | the moveable count of a concatenation is the sum of the counts |
| Holidays.MoveablesAll | toolkit/jamaica-holidays/python/jamaica_holidays/__init__.py:89-99 | a list of moveable holidays counts all of them |
| Holidays.MoveablesNone | toolkit/jamaica-holidays/python/jamaica_holidays/__init__.py:72-79 | a list of fixed holidays counts none |
| Holidays.MoveablesPermutation | toolkit/jamaica-holidays/python/jamaica_holidays/__init__.py:166 | the moveable count depends only on which holidays there are, not their order |
| Holidays.RemoveAtMultiset | toolkit/jamaica-holidays/python/jamaica_holidays/__init__.py:114 | taking one element out of a list takes it out of the multiset |
| Holidays.RemoveAtCount | toolkit/jamaica-holidays/python/jamaica_holidays/__init__.py:114 | taking one element out takes it out of the moveable count |
| Holidays.NotBusinessDay | toolkit/jamaica-holidays/python/jamaica_holidays/__init__.py:193-199 | Saturdays, Sundays and public holidays are not business days |
| Holidays.WorkingDaysBounds | toolkit/jamaica-holidays/python/jamaica_holidays/__init__.py:202-215 | no working days unless the start is before the end, and at most one per day |
| Holidays.GetWorkingDays | toolkit/jamaica-holidays/python/jamaica_holidays/__init__.py:202-215 | the loop counts the business days from the start up to, not including, the end |
| Holidays.FirstAfterFacts | toolkit/jamaica-holidays/python/jamaica_holidays/__init__.py:185-187 | the first holiday after a date is the earliest listed one after it; None only when none is after it |
| Holidays.GetNextHoliday | toolkit/jamaica-holidays/python/jamaica_holidays/__init__.py:177-190 | there is always a next holiday, a real date strictly after the given date: the first of the year's list after it, or else the first of next year's list, with none of the year's holidays after the date coming before it |
| Holidays.NextAfterSpec | toolkit/jamaica-holidays/python/jamaica_holidays/__init__.py:183-190 | over a date-ordered year, the first listed holiday after the date is taken, else next year's first, and no later-listed holiday after the date comes before it |
| Holidays.NextAfterFacts | toolkit/jamaica-holidays/python/jamaica_holidays/__init__.py:185-190 | when next year's holidays all fall after the date, the result exists and falls after it |
| Holidays.HolidaysValid | toolkit/jamaica-holidays/python/jamaica_holidays/__init__.py:158-166 | every holiday of a year is a real date, and the list is in date order |
| Holidays.NextYearAfter | toolkit/jamaica-holidays/python/jamaica_holidays/__init__.py:189-190 | next year's holidays exist and all fall after the given date |
| Holidays.YearEndsBefore | toolkit/jamaica-holidays/python/jamaica_holidays/__init__.py:189 | a date lies before the start of the next year |
| Holidays.GetEasterSunday | toolkit/jamaica-holidays/python/jamaica_holidays/__init__.py:218-220 | the ISO string parses back to Easter Sunday of the year |
| Currency.ScaleDownUp | toolkit/jamaica-currency/python/jamaica_currency/__init__.py:85-86 | dividing by 10**d undoes multiplying by it |
| Currency.ScaleDownOrder | toolkit/jamaica-currency/python/jamaica_currency/__init__.py:85-86 | dividing by 10**d keeps the order of amounts |
| Currency.RoundedUnits | toolkit/jamaica-currency/python/jamaica_currency/__init__.py:86 | `floor(x * 10**d + 0.5)` is the integer k with k <= x * 10**d + 0.5 < k + 1, non-negative for a non-negative x |
| Currency.RoundTo | toolkit/jamaica-currency/python/jamaica_currency/__init__.py:81-86 | ValueError exactly for negative decimals; otherwise the rounded units over 10**d, within half a unit of the value |
| Currency.RoundBounds | toolkit/jamaica-currency/python/jamaica_currency/__init__.py:86 | rounding half up moves a value by at most half a unit of the last place |
| Currency.GroupedLength | toolkit/jamaica-currency/python/jamaica_currency/__init__.py:99-103 | grouping adds one comma per full group of three digits after the first |
| Currency.GroupedAt | toolkit/jamaica-currency/python/jamaica_currency/__init__.py:100-103 | counting from the right, every fourth character is a comma and the others are the digits in order |
| Currency.GroupedNoLeadingComma | toolkit/jamaica-currency/python/jamaica_currency/__init__.py:101 | the grouped text never starts with a comma |
| Currency.GroupedUngroups | toolkit/jamaica-currency/python/jamaica_currency/__init__.py:99-103 | removing the commas gives the digits back |
| Currency.GroupedCons | toolkit/jamaica-currency/python/jamaica_currency/__init__.py:100-103 | a digit in front gains a comma after it exactly when the rest is a whole number of groups |
| Currency.GroupThousands | toolkit/jamaica-currency/python/jamaica_currency/__init__.py:99-103 | the reversed-enumeration loop builds the grouped text |
| Currency.AbsoluteText | toolkit/jamaica-currency/python/jamaica_currency/__init__.py:89-107 | ValueError exactly for negative decimals |
| Currency.FormatAbsolute | toolkit/jamaica-currency/python/jamaica_currency/__init__.py:89-107 | the method builds the fixed-point, optionally grouped text |
| Currency.FormatJmd | toolkit/jamaica-currency/python/jamaica_currency/__init__.py:114-135 | ValueError exactly for negative decimals |
| Currency.GroupedShape | toolkit/jamaica-currency/python/jamaica_currency/__init__.py:99-103 | the grouped text of digits starts and ends with a digit and holds only digits and commas |
| Currency.UnitsTextEnds | toolkit/jamaica-currency/python/jamaica_currency/__init__.py:92-107 | the formatted amount starts and ends with a digit |
| Currency.UnitsTextChars | toolkit/jamaica-currency/python/jamaica_currency/__init__.py:92-107 | the formatted amount holds only digits, commas and one dot |
| Currency.SignedParts | toolkit/jamaica-currency/python/jamaica_currency/__init__.py:134-135 | the result is the sign, then the symbol, then the digits |
| Currency.FormatJmdPrefix | toolkit/jamaica-currency/python/jamaica_currency/__init__.py:129-135 | starts with "-" exactly for a negative amount, then "J$" when the symbol is shown |
| Currency.FormatUsdPrefix | toolkit/jamaica-currency/python/jamaica_currency/__init__.py:181-193 | starts with "-" exactly for a negative amount, then "US$" |
| Currency.DotIndex | toolkit/jamaica-currency/python/jamaica_currency/__init__.py:97 | the position of the first dot, or the length when there is none |
| Currency.ParseNumber | toolkit/jamaica-currency/python/jamaica_currency/__init__.py:167-176 | a well-formed number parses to a non-negative value |
| Currency.ParseJmd | toolkit/jamaica-currency/python/jamaica_currency/__init__.py:138-150 | None for a missing or blank input |
| Currency.ParseStripped | toolkit/jamaica-currency/python/jamaica_currency/__init__.py:152-164 | an empty stripped text gives None |
| Currency.ParseUnsigned | toolkit/jamaica-currency/python/jamaica_currency/__init__.py:158-178 | the unsigned part parses to a non-negative value |
| Currency.ParseBareSymbols | toolkit/jamaica-currency/python/jamaica_currency/__init__.py:159-164 | "J$", "-" and "-J$" alone give None |
| Currency.ParseUnspaced | toolkit/jamaica-currency/python/jamaica_currency/__init__.py:148 | text without surrounding whitespace is parsed as it is |
| Currency.BareUnsigned | toolkit/jamaica-currency/python/jamaica_currency/__init__.py:163-164 | a bare symbol or nothing gives None |
| Currency.StripNumberText | toolkit/jamaica-currency/python/jamaica_currency/__init__.py:148 | a text starting and ending with a digit is its own strip |
| Currency.UnitsUngrouped | toolkit/jamaica-currency/python/jamaica_currency/__init__.py:167 | removing the commas from the formatted amount gives its integer and fraction digits |
| Currency.UnitsDecimal | toolkit/jamaica-currency/python/jamaica_currency/__init__.py:92 | the fixed-point text is a well-formed decimal whose value is the rounded amount |
| Currency.DecimalJoin | toolkit/jamaica-currency/python/jamaica_currency/__init__.py:170 | integer digits with an optional dot and fraction digits form a decimal of the expected value |
| Currency.DecimalJoinFraction | toolkit/jamaica-currency/python/jamaica_currency/__init__.py:170 | a decimal with a fraction has the value of its integer part plus the scaled fraction |
| Currency.DotAt | toolkit/jamaica-currency/python/jamaica_currency/__init__.py:97 | the first dot of an integer part followed by a fraction is right after the integer part |
| Currency.SplitUnits | toolkit/jamaica-currency/python/jamaica_currency/__init__.py:92 | the rounded units split into the integer part and a fraction below 10**d |
| Currency.DecimalEndsWithDigit | toolkit/jamaica-currency/python/jamaica_currency/__init__.py:170 | a well-formed decimal ends with a digit |
| Currency.ParseDecimal | toolkit/jamaica-currency/python/jamaica_currency/__init__.py:170-176 | a well-formed decimal parses to its value |
| Currency.ParseUnsignedBody | toolkit/jamaica-currency/python/jamaica_currency/__init__.py:158-168 | the symbol is skipped and the commas removed before the number is read |
| Currency.ParseSignedRest | toolkit/jamaica-currency/python/jamaica_currency/__init__.py:152-160 | a leading "-" negates what the rest parses to |
| Currency.ParseSigned | toolkit/jamaica-currency/python/jamaica_currency/__init__.py:152-178 | a signed, optionally symbolised body parses to its number, negated when signed |
| Currency.SignedValue | toolkit/jamaica-currency/python/jamaica_currency/__init__.py:178 | the sign flag negates the value |
| Currency.ParseUnits | toolkit/jamaica-currency/python/jamaica_currency/__init__.py:138-178 | the formatted units of an amount parse back to that amount, with its sign |
| Currency.ParseFormatJmd | toolkit/jamaica-currency/python/jamaica_currency/__init__.py:114-178 | parsing a formatted amount gives the rounded amount with its sign |
| Currency.JmdToUsd | toolkit/jamaica-currency/python/jamaica_currency/__init__.py:200-210 | the error case is a zero rate; otherwise the result lies within 0.0005 of jmd / rate |
| Currency.UsdToJmd | toolkit/jamaica-currency/python/jamaica_currency/__init__.py:213-223 | the result lies within 0.005 of usd * rate |
| Currency.RemoveGct | toolkit/jamaica-currency/python/jamaica_currency/__init__.py:240-247 | the error case is a rate of -1, which makes the divisor zero |
| Currency.GctRoundTrip | toolkit/jamaica-currency/python/jamaica_currency/__init__.py:230-247 | removing GCT undoes adding it, and adding undoes removing |
| Currency.AddTelecomGct | toolkit/jamaica-currency/python/jamaica_currency/__init__.py:250-252 | adding telecom GCT is adding GCT at 25% and never lowers a non-negative amount |
| Currency.WithGctTotal | toolkit/jamaica-currency/python/jamaica_currency/__init__.py:263-264 | for an amount in whole cents the total is base plus GCT, and the GCT lies within half a cent of 15% of the amount |
| Currency.FormatWithGctParses | toolkit/jamaica-currency/python/jamaica_currency/__init__.py:255-269 | each formatted field of the breakdown parses back to its amount |
| Currency.ParseCents | toolkit/jamaica-currency/python/jamaica_currency/__init__.py:114-178 | an amount in whole cents, formatted with the defaults, parses back to itself |
| Currency.RoundCents | toolkit/jamaica-currency/python/jamaica_currency/__init__.py:81-86 | an amount in whole cents is unchanged by rounding to two places |
| Tax.RoundHalfEvenBounds | toolkit/jamaica-tax/python/jamaica_tax/__init__.py:50-52 | rounding to the nearest integer, ties to even, moves a value by at most one half |
| Tax.RoundHalfEvenWhole | toolkit/jamaica-tax/python/jamaica_tax/__init__.py:50-52 | an integer is its own rounding |
| Tax.RoundHalfEvenMonotone | toolkit/jamaica-tax/python/jamaica_tax/__init__.py:50-52 | rounding keeps the order of values |
| Tax.RoundHalfEvenShift | toolkit/jamaica-tax/python/jamaica_tax/__init__.py:50-52 | shifting by an even integer shifts the rounding by the same amount |
| Tax.Round2Facts | toolkit/jamaica-tax/python/jamaica_tax/__init__.py:50-52 | `round(x, 2)` is a whole number of cents within half a cent of x |
| Tax.Round2OfCents | toolkit/jamaica-tax/python/jamaica_tax/__init__.py:50-52 | an amount already in whole cents is unchanged by `round(x, 2)` |
| Tax.Round2Monotone | toolkit/jamaica-tax/python/jamaica_tax/__init__.py:50-52 | `round(x, 2)` keeps the order of amounts |
| Tax.Round2Shift | toolkit/jamaica-tax/python/jamaica_tax/__init__.py:50-52 | adding whole dollars commutes with rounding to cents |
| Tax.Round2NonNegative | toolkit/jamaica-tax/python/jamaica_tax/__init__.py:50-52 | a non-negative amount rounds to a non-negative amount |
| Tax.CentsArithmetic | toolkit/jamaica-tax/python/jamaica_tax/__init__.py:50-52 | sums and differences of whole-cent amounts are whole-cent amounts |
| Tax.BracketsContiguous | toolkit/jamaica-tax/python/jamaica_tax/__init__.py:143-164 | three brackets, the first tax-free up to the threshold, each starting where the previous ends, the last unbounded |
| Tax.TaxableIncome | toolkit/jamaica-tax/python/jamaica_tax/__init__.py:181 | the income above the threshold is never negative |
| Tax.IncomeTax | toolkit/jamaica-tax/python/jamaica_tax/__init__.py:176-218 | ValueError exactly for a negative income |
| Tax.CalculateIncomeTax | toolkit/jamaica-tax/python/jamaica_tax/__init__.py:176-218 | the two-band computation with its appended details yields the income-tax breakdown |
| Tax.NoTaxAtOrBelowThreshold | toolkit/jamaica-tax/python/jamaica_tax/__init__.py:176-218 | an income up to the threshold pays no tax, has no bracket details and a zero effective rate |
| Tax.IncomeTaxIsBandSum | toolkit/jamaica-tax/python/jamaica_tax/__init__.py:187-208 | the tax is the rounded 25% tax on the first six million above the threshold plus the rounded 30% tax on the rest |
| Tax.IncomeTaxNearExact | toolkit/jamaica-tax/python/jamaica_tax/__init__.py:176-218 | the tax lies within a cent of the exact banded tax |
| Tax.IncomeTaxDetails | toolkit/jamaica-tax/python/jamaica_tax/__init__.py:187-206 | one detail per band the taxable income reaches, with non-negative amounts adding up to the taxable income |
| Tax.DetailsOfBothBands | toolkit/jamaica-tax/python/jamaica_tax/__init__.py:189-205 | the taxable amounts of the two bands add up to the rounded taxable income |
| Tax.IncomeTaxMonotone | toolkit/jamaica-tax/python/jamaica_tax/__init__.py:176-218 | a higher income never pays less tax |
| Tax.BracketsAgreeWithIncomeTax | toolkit/jamaica-tax/python/jamaica_tax/__init__.py:143-208 | taxing an income by the published bracket table gives the exact tax the computation rounds |
| Tax.Nis | toolkit/jamaica-tax/python/jamaica_tax/__init__.py:225-239 | ValueError exactly for a negative annual gross |
| Tax.NisCapped | toolkit/jamaica-tax/python/jamaica_tax/__init__.py:225-239 | employee and employer each pay 3% of the gross capped at the ceiling, at most 150000, exactly that at or above the ceiling, total their sum, at_ceiling exactly at or above the ceiling |
| Tax.Statutory | toolkit/jamaica-tax/python/jamaica_tax/__init__.py:246-275 | ValueError exactly for a negative gross pay |
| Tax.StatutoryTotal | toolkit/jamaica-tax/python/jamaica_tax/__init__.py:246-275 | each share lies within half a cent of gross times its rate and the total is their sum |
| Tax.Nht | toolkit/jamaica-tax/python/jamaica_tax/__init__.py:246-257 | ValueError exactly for a negative gross pay |
| Tax.EducationTax | toolkit/jamaica-tax/python/jamaica_tax/__init__.py:264-275 | ValueError exactly for a negative gross pay |
| Tax.Heart | toolkit/jamaica-tax/python/jamaica_tax/__init__.py:282-285 | ValueError exactly for a negative gross pay |
| Tax.PeriodsPerYear | toolkit/jamaica-tax/python/jamaica_tax/__init__.py:42-47 | the known periods are annual, monthly, fortnightly and weekly, with 1, 12, 26 and 52 periods |
| Tax.Payroll | toolkit/jamaica-tax/python/jamaica_tax/__init__.py:292-299 | ValueError for a negative gross pay, otherwise KeyError for an unknown period |
| Tax.PayrollTotals | toolkit/jamaica-tax/python/jamaica_tax/__init__.py:292-348 | the deductions and employer contributions are the exact sums of their parts, and net pay and cost to employer follow from them |
| Tax.PayrollShape | toolkit/jamaica-tax/python/jamaica_tax/__init__.py:299-330 | the annualised gross and the totals are the rounded sums the source computes |
| Tax.PayrollPartsInCents | toolkit/jamaica-tax/python/jamaica_tax/__init__.py:304-322 | every deduction and employer contribution is a whole number of cents |
| Tax.TotalsOfParts | toolkit/jamaica-tax/python/jamaica_tax/__init__.py:324-330 | rounding a sum of whole-cent amounts leaves it unchanged, so the totals are exact sums |
| Tax.StatutoryPartsInCents | toolkit/jamaica-tax/python/jamaica_tax/__init__.py:312-322 | the NHT, education-tax and HEART amounts are whole numbers of cents |
| Tax.PerPeriod | toolkit/jamaica-tax/python/jamaica_tax/__init__.py:304-309 | the per-period share of an annual amount is in whole cents and within half a cent of the exact share |
| Tax.SumOfFourCents | toolkit/jamaica-tax/python/jamaica_tax/__init__.py:324 | four whole-cent amounts add up to a whole-cent amount that rounding leaves unchanged |
| GovFees.AgencyIdRoundTrip | toolkit/jamaica-gov-fees/python/jamaica_gov_fees/__init__.py:73-84 | the ten agency ids and their texts correspond one to one |
| GovFees.GetAgency | toolkit/jamaica-gov-fees/python/jamaica_gov_fees/__init__.py:197-202 | None exactly for an unknown id; otherwise the agency with that id and its listed name, without an acronym exactly for the trade board and the labour ministry |
| GovFees.GetAgencies | toolkit/jamaica-gov-fees/python/jamaica_gov_fees/__init__.py:189-194 | one agency per entry of the agency table |
| GovFees.AgenciesAsLookedUp | toolkit/jamaica-gov-fees/python/jamaica_gov_fees/__init__.py:189-202 | every agency in the list is what looking up its own id returns |
| GovFees.RowFee | toolkit/jamaica-gov-fees/python/jamaica_gov_fees/__init__.py:234-240 | ValueError exactly when no row has the wanted days and office; otherwise the fee of a row that has them |
| GovFees.FindRowFee | toolkit/jamaica-gov-fees/python/jamaica_gov_fees/__init__.py:234-240 | the loop returns the fee of the first row with the wanted days and office |
| GovFees.PassportFeeOf | toolkit/jamaica-gov-fees/python/jamaica_gov_fees/__init__.py:210-240 | ValueError for an unknown category or speed; otherwise the row lookup in the category's table with the speed's days and the effective office |
| GovFees.GetPassportFee | toolkit/jamaica-gov-fees/python/jamaica_gov_fees/__init__.py:210-240 | returns what `PassportFeeOf` states: ValueError for an unknown category or speed, else the first row of the category with the speed's days at the effective office |
| GovFees.ReplacementUsesKingston | toolkit/jamaica-gov-fees/python/jamaica_gov_fees/__init__.py:231-232 | a replacement passport is always priced at the Kingston office |
| GovFees.RegionalSameDayRaises | toolkit/jamaica-gov-fees/python/jamaica_gov_fees/__init__.py:88-117 | a same-day adult passport at a regional office raises ValueError |
| GovFees.NoRegionalSameDayRow | toolkit/jamaica-gov-fees/python/jamaica_gov_fees/__init__.py:89-99 | the adult table has no same-day regional row |
| GovFees.StandardAdultNewAtKingston | toolkit/jamaica-gov-fees/python/jamaica_gov_fees/__init__.py:89-90 | a new adult passport at standard speed in Kingston costs 6500 |
| GovFees.VehicleRegistrationFee | toolkit/jamaica-gov-fees/python/jamaica_gov_fees/__init__.py:248-255 | ValueError exactly for a negative engine size |
| GovFees.VehicleFeeIsMotorCarRow | toolkit/jamaica-gov-fees/python/jamaica_gov_fees/__init__.py:129-133 | the fee is the motor-car row of the engine size's band |
| GovFees.VehicleFeeMonotone | toolkit/jamaica-gov-fees/python/jamaica_gov_fees/__init__.py:248-262 | a larger engine never pays less |
| GovFees.Lookup | toolkit/jamaica-gov-fees/python/jamaica_gov_fees/__init__.py:271-274 | ValueError exactly for a key the table does not hold; otherwise a value listed for the key |
| GovFees.LookupListedKey | toolkit/jamaica-gov-fees/python/jamaica_gov_fees/__init__.py:271-274 | in a table with distinct keys, each key finds its own value |
| GovFees.SingleKeyLookups | toolkit/jamaica-gov-fees/python/jamaica_gov_fees/__init__.py:265-350 | the fitness, licence, business and police-record lookups succeed exactly for the keys of their tables |
| GovFees.VitalRecordFee | toolkit/jamaica-gov-fees/python/jamaica_gov_fees/__init__.py:318-333 | ValueError unless both the record type and the speed are known |
| GovFees.Fee | toolkit/jamaica-gov-fees/python/jamaica_gov_fees/__init__.py:366-368 | the entry is of the given agency and amount and carries that agency's listed name |
| GovFees.Spaced | toolkit/jamaica-gov-fees/python/jamaica_gov_fees/__init__.py:371 | replacing underscores with spaces keeps the length and leaves no underscore |
| GovFees.AttributedConcat | toolkit/jamaica-gov-fees/python/jamaica_gov_fees/__init__.py:358-726 | joining two lists of attributed entries gives an attributed list |
| GovFees.AddPassportFees | toolkit/jamaica-gov-fees/python/jamaica_gov_fees/__init__.py:362-376 | appends exactly the passport entries, category by category in table order and one per row in row order (`PassportSections`), all attributed |
| GovFees.AddNiraFees | toolkit/jamaica-gov-fees/python/jamaica_gov_fees/__init__.py:378-401 | appends exactly, per record type, one certificate entry per speed, then the additional-copy entry (`NiraFees`), all attributed |
| GovFees.AddTableFees | toolkit/jamaica-gov-fees/python/jamaica_gov_fees/__init__.py:425-447 | appends exactly one entry per table row, in table order, named by the section's naming (`TableFees`), all attributed |
| GovFees.AddTajFees | toolkit/jamaica-gov-fees/python/jamaica_gov_fees/__init__.py:403-458 | appends exactly the two free services, the vehicle-registration and fitness table entries and the stamp duty, in that order (`TajFees`) |
| GovFees.AddItaFees | toolkit/jamaica-gov-fees/python/jamaica_gov_fees/__init__.py:460-498 | appends exactly the permit, the examination, the licence table entries and the road code test, in that order (`ItaFees`) |
| GovFees.Append | toolkit/jamaica-gov-fees/python/jamaica_gov_fees/__init__.py:358-726 | appends exactly the one entry and keeps the list attributed |
| GovFees.AddCojFees | toolkit/jamaica-gov-fees/python/jamaica_gov_fees/__init__.py:500-573 | appends exactly the eight Companies Office entries (`CojFees`), in order |
| GovFees.AddNlaNepaFees | toolkit/jamaica-gov-fees/python/jamaica_gov_fees/__init__.py:575-635 | appends exactly the six land and environment agency entries (`NlaNepaFees`), in order |
| GovFees.AddPoliceTradeLabourFees | toolkit/jamaica-gov-fees/python/jamaica_gov_fees/__init__.py:637-724 | appends exactly the police, trade board and labour entries (`PoliceTradeLabourFees`), in order |
| GovFees.AddOtherAgencies | toolkit/jamaica-gov-fees/python/jamaica_gov_fees/__init__.py:500-724 | appends exactly the COJ, NLA and NEPA, police-record table, and police, trade board and labour entries, in that order (`OtherFees`) |
| GovFees.GetAllFees | toolkit/jamaica-gov-fees/python/jamaica_gov_fees/__init__.py:358-726 | exactly `AllFees()`: the passport, NIRA, TAJ, ITA and other agencies' sections in the source's order, every entry attributed with a non-negative amount |
| GovFees.SearchFeesIn | toolkit/jamaica-gov-fees/python/jamaica_gov_fees/__init__.py:729-742 | exactly the fees of the list whose joined, lower-cased text contains the lower-cased query, in list order (`FeesMatching`); an attributed list gives attributed results |
| GovFees.SearchFees | toolkit/jamaica-gov-fees/python/jamaica_gov_fees/__init__.py:729-742 | exactly the matching fees of `AllFees()`, in order; each result matches the query and is attributed |
| GovFees.FeesMatchingIsFilter | toolkit/jamaica-gov-fees/python/jamaica_gov_fees/__init__.py:729-742 | the search from the back is the filter of the list by the match test |
| GovFees.EmptyQueryMatchesAll | toolkit/jamaica-gov-fees/python/jamaica_gov_fees/__init__.py:734-741 | the empty query returns every fee |
| Sessions.ChosenId | apps/ai-assistant-api/app/sessions.py:44 | a non-empty id given by the caller is kept; otherwise the freshly generated id is used |
| Sessions.SessionStore.constructor | apps/ai-assistant-api/app/sessions.py:28-29 | a new store holds no sessions |
| Sessions.SessionStore.History | apps/ai-assistant-api/app/sessions.py:66-74 | the messages of a known session, the empty list for an unknown one |
| Sessions.SessionStore.GetOrCreate | apps/ai-assistant-api/app/sessions.py:35-46 | an existing non-empty id is returned with the store unchanged; otherwise the chosen id is registered with an empty history, and the returned id always names a session |
| Sessions.SessionStore.AddMessage | apps/ai-assistant-api/app/sessions.py:48-64 | KeyError and no change for an unknown id; otherwise exactly one message is appended to that session's history and every other history is unchanged |
| Parishes.AllParishes | toolkit/jamaica-parishes/python/jamaica_parishes/__init__.py:508-510 | the fourteen parish rows in their published order |
| Parishes.CodeRankAt | toolkit/jamaica-parishes/python/jamaica_parishes/__init__.py:456-459 | each row's code sits at the row's own position in the code list |
| Parishes.CodesUnique | toolkit/jamaica-parishes/python/jamaica_parishes/__init__.py:462 | no two rows share a code, so the code index keeps every row |
| Parishes.GetParish | toolkit/jamaica-parishes/python/jamaica_parishes/__init__.py:513-515 | a row whose code is the upper-cased argument, None exactly when no row has that code |
| Parishes.GetParishIsFirstMatch | toolkit/jamaica-parishes/python/jamaica_parishes/__init__.py:462-515 | the code index finds what a front-to-back search for the upper-cased code finds |
| Parishes.GetParishFindsEveryRow | toolkit/jamaica-parishes/python/jamaica_parishes/__init__.py:462-515 | every row is found by its own code |
| Parishes.UpperOfUpper | toolkit/jamaica-parishes/python/jamaica_parishes/__init__.py:456-459 | every code in the table is already upper case |
| Parishes.GetParishIgnoresCase | toolkit/jamaica-parishes/python/jamaica_parishes/__init__.py:515 | the code lookup ignores the case of its argument |
| Parishes.CollapseSpacesFrom | toolkit/jamaica-parishes/python/jamaica_parishes/__init__.py:474 | collapsing whitespace runs leaves no whitespace but single spaces |
| Parishes.StripKeepsSingleSpaced | toolkit/jamaica-parishes/python/jamaica_parishes/__init__.py:474 | stripping a single-spaced text keeps it single-spaced and leaves no space at either end |
| Parishes.NormalizeNameShape | toolkit/jamaica-parishes/python/jamaica_parishes/__init__.py:466-475 | a normalised name is stripped and single-spaced |
| Parishes.ReplaceSaintContext | toolkit/jamaica-parishes/python/jamaica_parishes/__init__.py:472 | the whole-word "saint" pass depends only on the preceding character and the rest of the text |
| Parishes.ReplaceStContext | toolkit/jamaica-parishes/python/jamaica_parishes/__init__.py:473 | the bare-"st" pass depends only on the preceding character and the rest of the text |
| Parishes.SaintPassOnSaint | toolkit/jamaica-parishes/python/jamaica_parishes/__init__.py:472 | a leading whole word "saint" becomes "st." |
| Parishes.SaintPassCopies | toolkit/jamaica-parishes/python/jamaica_parishes/__init__.py:472 | text where no whole word "saint" starts is copied unchanged |
| Parishes.StPassCopies | toolkit/jamaica-parishes/python/jamaica_parishes/__init__.py:473 | text where no bare "st" starts is copied unchanged |
| Parishes.NotSaintAt | toolkit/jamaica-parishes/python/jamaica_parishes/__init__.py:472 | no "saint" word starts where the text does not spell "sa" |
| Parishes.NotStAt | toolkit/jamaica-parishes/python/jamaica_parishes/__init__.py:473 | no bare "st" starts where the text does not spell "s" |
| Parishes.StSpelled | toolkit/jamaica-parishes/python/jamaica_parishes/__init__.py:473 | "st " and "st. " in front of the same text give the same result |
| Parishes.SaintSpelled | toolkit/jamaica-parishes/python/jamaica_parishes/__init__.py:471-473 | after both passes, "saint ", "st. " and "st " in front of the same lower-cased words agree |
| Parishes.SaintSpellingsAgree | toolkit/jamaica-parishes/python/jamaica_parishes/__init__.py:466-475 | "Saint", "St." and "St" in front of the same words normalise alike |
| Parishes.NormalizeNameIgnoresCase | toolkit/jamaica-parishes/python/jamaica_parishes/__init__.py:471 | case never changes the normalised name |
| Parishes.ByNormalizedName | toolkit/jamaica-parishes/python/jamaica_parishes/__init__.py:478-480 | the name index holds a row exactly for the normalised name of some row |
| Parishes.GetParishByName | toolkit/jamaica-parishes/python/jamaica_parishes/__init__.py:518-523 | a row whose normalised name is the argument's, None exactly when no row's name normalises alike |
| Parishes.GetParishByNameSpellings | toolkit/jamaica-parishes/python/jamaica_parishes/__init__.py:518-523 | "Saint", "St." and "St" spellings, and any case, find the same parish |
| Parishes.ParishesWithService | toolkit/jamaica-parishes/python/jamaica_parishes/__init__.py:526-528 | exactly the rows having that service centre |
| Parishes.NlaParishesStartWithKingston | toolkit/jamaica-parishes/python/jamaica_parishes/__init__.py:562-564 | the list of Land Agency parishes is non-empty and starts with Kingston, so the scan's first element exists |
| Parishes.DistanceKm | toolkit/jamaica-parishes/python/jamaica_parishes/__init__.py:531-547 | ValueError exactly when either code is unknown; otherwise the distance between the two centres |
| Parishes.DistancesFrom | toolkit/jamaica-parishes/python/jamaica_parishes/__init__.py:565-574 | one distance per candidate, in order |
| Parishes.NearestAmong | toolkit/jamaica-parishes/python/jamaica_parishes/__init__.py:564-579 | the first candidate at least distance from the origin, with that distance |
| Parishes.ScanNearest | toolkit/jamaica-parishes/python/jamaica_parishes/__init__.py:564-579 | the loop that replaces the best only on a strictly smaller distance finds the first nearest candidate |
| Parishes.NearestWithNla | toolkit/jamaica-parishes/python/jamaica_parishes/__init__.py:558-560 | ValueError exactly for an unknown code |
| Parishes.NearestWithNlaIsNearest | toolkit/jamaica-parishes/python/jamaica_parishes/__init__.py:550-579 | the result has a Land Agency office and no Land Agency parish is nearer |
| Parishes.GetNearestParishWithNla | toolkit/jamaica-parishes/python/jamaica_parishes/__init__.py:550-579 | the method computes the nearest Land Agency parish |
| Parishes.OwnIsNearestAmong | toolkit/jamaica-parishes/python/jamaica_parishes/__init__.py:570-577 | among candidates holding the origin, at distance zero when all others are farther, the origin is the answer |
| Parishes.OwnOfficeIsNearest | toolkit/jamaica-parishes/python/jamaica_parishes/__init__.py:550-579 | a parish with its own Land Agency office is its own nearest one, at distance zero |
| Parishes.PopulationConcat | toolkit/jamaica-parishes/python/jamaica_parishes/__init__.py:582-584 | the population sum distributes over joined lists |
| Parishes.PopulationPrefix | toolkit/jamaica-parishes/python/jamaica_parishes/__init__.py:582-584 | the sum over the first n rows is the running total up to n |
| Parishes.TotalPopulationIs | toolkit/jamaica-parishes/python/jamaica_parishes/__init__.py:582-584 | the fourteen populations add up to 2796538 |
| ParishLookup.CentreDistances | apps/addressing-api/app/parish_lookup.py:89-91 | one distance per parish centre, in list order |
| ParishLookup.NearestParishSpec | apps/addressing-api/app/parish_lookup.py:65-102 | None exactly when every centre is beyond 150 km (or the list is empty); otherwise the first nearest parish, within 150 km |
| ParishLookup.FindParish | apps/addressing-api/app/parish_lookup.py:85-102 | the scan from an infinite best distance, replacing only on a strictly smaller distance, gives that parish |
| ParishLookup.GetParishByCode | apps/addressing-api/app/parish_lookup.py:105-122 | the first parish whose upper-cased code is the upper-cased argument, None exactly when there is none |
| Health.Authorities | toolkit/jamaica-health/python/jamaica_health/__init__.py:281-283 | the four regional health authorities |
| Health.AuthorityOf | toolkit/jamaica-health/python/jamaica_health/__init__.py:82-107 | the authority assembled for a region carries that region's id |
| Health.ParishEntries | toolkit/jamaica-health/python/jamaica_health/__init__.py:115-116 | one assignment per parish of the authority, its lower-cased name to the authority's id, in order |
| Health.RegionEntriesSpec | toolkit/jamaica-health/python/jamaica_health/__init__.py:113-116 | every assignment comes from a parish of some authority, and every parish of every authority is assigned |
| Health.RegionEntriesStep | toolkit/jamaica-health/python/jamaica_health/__init__.py:114 | one more authority appends its parish assignments |
| Health.ParishEntriesStep | toolkit/jamaica-health/python/jamaica_health/__init__.py:115-116 | one step of the inner loop stores one lower-cased parish under the authority's id |
| Health.BuildRegionMap | toolkit/jamaica-health/python/jamaica_health/__init__.py:113-116 | the nested import-time loop builds the dictionary of all the assignments |
| Health.AuthorityListing | toolkit/jamaica-health/python/jamaica_health/__init__.py:82-107 | every lower-cased parish name of the table is listed by exactly one authority, at one position |
| Health.AuthoritiesUnambiguous | toolkit/jamaica-health/python/jamaica_health/__init__.py:82-107 | the table names each parish once |
| Health.RegionMapSpec | toolkit/jamaica-health/python/jamaica_health/__init__.py:113-116 | for an unambiguous table, the map holds exactly the listed lower-cased names, each under the region listing it |
| Health.RegionForParish | toolkit/jamaica-health/python/jamaica_health/__init__.py:119-123 | an unknown parish is a ValueError |
| Health.RegionForParishSpec | toolkit/jamaica-health/python/jamaica_health/__init__.py:119-123 | a name resolves exactly when an authority lists it, in any case, and then to that authority's region |
| Health.FindAuthority | toolkit/jamaica-health/python/jamaica_health/__init__.py:292-294 | the loop over the authorities finds the row of every region |
| Health.AuthorityRow | toolkit/jamaica-health/python/jamaica_health/__init__.py:82-107 | each row is the authority of its own region |
| Health.GetRegionalAuthority | toolkit/jamaica-health/python/jamaica_health/__init__.py:286-295 | ValueError for an unknown parish; otherwise an authority whose region is the parish's region |
| Health.GetRegionalAuthoritySpec | toolkit/jamaica-health/python/jamaica_health/__init__.py:286-295 | an authority is found exactly for a listed parish, in any case, and it lists that parish |
| Health.AllFacilities | toolkit/jamaica-health/python/jamaica_health/__init__.py:243-245 | the 55 facility rows in their published order |
| Health.FacilityListed | toolkit/jamaica-health/python/jamaica_health/__init__.py:130-216 | each facility's parish is listed by the authority of the facility's region |
| Health.FacilityRegionMatches | toolkit/jamaica-health/python/jamaica_health/__init__.py:130-216 | every facility's region is the region the authority table gives its parish |
| Health.FacilityShape | toolkit/jamaica-health/python/jamaica_health/__init__.py:130-216 | the first 22 rows are the hospitals, and exactly they carry coordinates |
| Health.KindSplit | toolkit/jamaica-health/python/jamaica_health/__init__.py:248-255 | a list of n hospitals followed by centres filters into its two parts |
| Health.HospitalsThenCentres | toolkit/jamaica-health/python/jamaica_health/__init__.py:248-255 | the hospitals are the first 22 rows and the health centres the other 33 |
| Health.HospitalsAndCentresPartition | toolkit/jamaica-health/python/jamaica_health/__init__.py:243-255 | hospitals and health centres together are the directory, each facility once |
| Health.ByKindWithinParish | toolkit/jamaica-health/python/jamaica_health/__init__.py:258-273 | in any list, the hospitals and centres of a parish are its facilities filtered by kind, and together they are all of them |
| Health.ByParishByType | toolkit/jamaica-health/python/jamaica_health/__init__.py:258-273 | the parish's hospitals and centres are its facilities filtered by kind, in order, and together they are all of them |
| Health.ByParishIgnoresCase | toolkit/jamaica-health/python/jamaica_health/__init__.py:258-261 | the parish filter ignores the case of its argument |
| Health.FacilityRegions | toolkit/jamaica-health/python/jamaica_health/__init__.py:130-216 | every facility is managed by the authority the table gives its parish |
| Health.ByParishWithinRegionOf | toolkit/jamaica-health/python/jamaica_health/__init__.py:258-278 | in a list whose facilities sit in their parish's region, a facility found by parish is found again under that region |
| Health.ByParishWithinRegion | toolkit/jamaica-health/python/jamaica_health/__init__.py:258-278 | every facility of a parish is listed under the region the table gives that parish |
| Health.EmptySearchReturnsAll | toolkit/jamaica-health/python/jamaica_health/__init__.py:298-301 | searching for the empty text returns the whole directory |
| Health.SearchFindsByName | toolkit/jamaica-health/python/jamaica_health/__init__.py:298-301 | every facility is found by searching for its own name, in any case |
| Health.CandidatesIn | toolkit/jamaica-health/python/jamaica_health/__init__.py:314-316 | exactly the facilities with coordinates, of the type when one is given |
| Health.CandidateDistances | toolkit/jamaica-health/python/jamaica_health/__init__.py:322-326 | one distance per candidate, in order |
| Health.NearestInSpec | toolkit/jamaica-health/python/jamaica_health/__init__.py:304-331 | None exactly when no facility of the type has coordinates; otherwise the first nearest candidate |
| Health.NearestFacilitySpec | toolkit/jamaica-health/python/jamaica_health/__init__.py:304-331 | the same for the directory itself |
| Health.NearestCentreNever | toolkit/jamaica-health/python/jamaica_health/__init__.py:130-216 | only hospitals carry coordinates, so no nearest health centre is ever found, while a nearest hospital always is |
| Health.ScanFacilities | toolkit/jamaica-health/python/jamaica_health/__init__.py:320-331 | the loop that replaces the best only on a strictly smaller distance finds the first nearest candidate |
| Health.NearestScan | toolkit/jamaica-health/python/jamaica_health/__init__.py:314-331 | the body of the search over a list computes the nearest-candidate function |
| Health.GetNearestFacility | toolkit/jamaica-health/python/jamaica_health/__init__.py:304-331 | the method computes the nearest facility of the directory |
| Health.GetHealthFacilityCount | toolkit/jamaica-health/python/jamaica_health/__init__.py:334-336 | 55 facilities, the hospitals plus the health centres |
| Schools.ResolveParish | toolkit/jamaica-schools/python/jamaica_schools/__init__.py:199-211 | an unknown parish is a ValueError |
| Schools.ParishOfLowerIsLowered | toolkit/jamaica-schools/python/jamaica_schools/__init__.py:78 | a key of the lookup table leads to a parish whose lower-cased name is the key |
| Schools.ParishOfLowerFinds | toolkit/jamaica-schools/python/jamaica_schools/__init__.py:61-78 | every parish's lower-cased name leads back to it |
| Schools.LowerNames | toolkit/jamaica-schools/python/jamaica_schools/__init__.py:61-76 | the lower-cased names of the fourteen parishes, spelled out |
| Schools.LowerName | toolkit/jamaica-schools/python/jamaica_schools/__init__.py:78 | a name lower-cases to a text that matches it character by character |
| Schools.ResolveParishSpec | toolkit/jamaica-schools/python/jamaica_schools/__init__.py:199-211 | a name resolves exactly when it is some parish's name in any case, and then to that parish's canonical spelling |
| Schools.GetSchoolsByParish | toolkit/jamaica-schools/python/jamaica_schools/__init__.py:224-231 | ValueError exactly for an unknown parish; otherwise exactly the schools whose parish is the canonical spelling |
| Schools.ByParishIgnoresCase | toolkit/jamaica-schools/python/jamaica_schools/__init__.py:224-231 | two spellings of a parish that differ only in case give the same schools |
| Schools.SchoolListedUnderItsParish | toolkit/jamaica-schools/python/jamaica_schools/__init__.py:224-231 | a school is listed under its own parish, however that parish is written |
| Schools.GetSchoolsByType | toolkit/jamaica-schools/python/jamaica_schools/__init__.py:234-236 | exactly the schools of the type |
| Schools.GetSchoolsByLevel | toolkit/jamaica-schools/python/jamaica_schools/__init__.py:239-241 | exactly the schools of the level |
| Schools.GetSchoolsByOwnership | toolkit/jamaica-schools/python/jamaica_schools/__init__.py:244-246 | exactly the schools of the ownership |
| Schools.GetUniversities | toolkit/jamaica-schools/python/jamaica_schools/__init__.py:270-272 | exactly the schools marked as universities |
| Schools.FiltersKeepOrder | toolkit/jamaica-schools/python/jamaica_schools/__init__.py:234-272 | the filters keep the directory's order: filtering a joined directory filters each part |
| Schools.GetSchool | toolkit/jamaica-schools/python/jamaica_schools/__init__.py:249-267 | the two loops compute the exact-then-partial lookup |
| Schools.SchoolNamedSpec | toolkit/jamaica-schools/python/jamaica_schools/__init__.py:249-267 | an exact case-insensitive match wins and is the first such school; without one, the first school whose name contains the lower-cased name, or None |
| Schools.SearchSchools | toolkit/jamaica-schools/python/jamaica_schools/__init__.py:275-281 | exactly the schools whose lower-cased name contains the lower-cased query |
| Schools.EmptySearchReturnsAll | toolkit/jamaica-schools/python/jamaica_schools/__init__.py:275-281 | the empty query returns every school |
| Schools.ParishColumn | toolkit/jamaica-schools/python/jamaica_schools/__init__.py:292-293 | the parish of each school, in order |
| Schools.GetSchoolCountByParish | toolkit/jamaica-schools/python/jamaica_schools/__init__.py:289-294 | each parish with a school, once, with its number of schools; the counts add up to the number of schools |
| Places.GetPlacesByParish | toolkit/jamaica-places/python/jamaica_places/__init__.py:291-294 | exactly the places whose lower-cased parish is the lower-cased argument |
| Places.UnknownParishIsEmpty | toolkit/jamaica-places/python/jamaica_places/__init__.py:291-294 | a parish no place names gives the empty list, not an error |
| Places.GetPlacesByType | toolkit/jamaica-places/python/jamaica_places/__init__.py:297-299 | exactly the places of the type |
| Places.GetPlace | toolkit/jamaica-places/python/jamaica_places/__init__.py:302-311 | the loop returns the first place whose lower-cased name is the lower-cased argument; None exactly when none has it |
| Places.EarlierDuplicateWins | toolkit/jamaica-places/python/jamaica_places/__init__.py:302-311 | of two places sharing a name, the one listed first is returned |
| Places.RetreatIsStMary | toolkit/jamaica-places/python/jamaica_places/__init__.py:241-274 | with the St. Mary row of "Retreat" listed before the St. Thomas row and no Retreat before them, looking up "retreat" in any case finds the St. Mary community |
| Places.GetTowns | toolkit/jamaica-places/python/jamaica_places/__init__.py:314-316 | exactly the places of type town or city |
| Places.TownsAreCitiesAndTowns | toolkit/jamaica-places/python/jamaica_places/__init__.py:297-316 | the towns list holds exactly the cities and the towns, each as often as the directory does |
| Places.CommunitiesSpec | toolkit/jamaica-places/python/jamaica_places/__init__.py:319-326 | the names, in order, of the parish's places of type community, each naming such a place |
| Places.SearchPlaces | toolkit/jamaica-places/python/jamaica_places/__init__.py:329-332 | exactly the places whose lower-cased name contains the lower-cased query |
| Places.FoundPlaceIsSearched | toolkit/jamaica-places/python/jamaica_places/__init__.py:302-332 | a place found by name is among the search hits for that name |
| Places.ParishColumn | toolkit/jamaica-places/python/jamaica_places/__init__.py:343-344 | the parish of each place, in order |
| Places.GetPlaceCountByParish | toolkit/jamaica-places/python/jamaica_places/__init__.py:340-345 | each parish once, with its number of places; the counts add up to the number of places |
| Constituencies.Constituencies | toolkit/jamaica-constituencies/python/jamaica_constituencies/__init__.py:40-118 | the table of the constituencies, row by row |
| Constituencies.GetConstituencyCount | toolkit/jamaica-constituencies/python/jamaica_constituencies/__init__.py:172-174 | the table has 63 rows |
| Constituencies.NameEntries | toolkit/jamaica-constituencies/python/jamaica_constituencies/__init__.py:124-126 | one entry per row, its lower-cased name to the row, in table order |
| Constituencies.GetConstituencySpec | toolkit/jamaica-constituencies/python/jamaica_constituencies/__init__.py:124-126 | a constituency is found exactly when one has the name in any case; it has that name, and of several the last listed wins |
| Constituencies.ParishIndexStep | toolkit/jamaica-constituencies/python/jamaica_constituencies/__init__.py:129-131 | one more row is appended to the list under its lower-cased parish |
| Constituencies.ParishIndexEntry | toolkit/jamaica-constituencies/python/jamaica_constituencies/__init__.py:128-131 | under each key the index holds the rows of that parish in table order |
| Constituencies.ParishIndexNonEmpty | toolkit/jamaica-constituencies/python/jamaica_constituencies/__init__.py:131 | no key of the index holds an empty list |
| Constituencies.ParishIndexSpec | toolkit/jamaica-constituencies/python/jamaica_constituencies/__init__.py:128-131 | a key is present exactly when some row's lower-cased parish is that key, and it holds that parish's rows in order |
| Constituencies.BuildParishIndex | toolkit/jamaica-constituencies/python/jamaica_constituencies/__init__.py:128-131 | the import-time loop builds the parish index |
| Constituencies.ByParishIsFilter | toolkit/jamaica-constituencies/python/jamaica_constituencies/__init__.py:144-152 | the rows whose lower-cased parish is the lower-cased argument, in table order, and nothing for an unknown parish |
| Constituencies.SearchConstituencies | toolkit/jamaica-constituencies/python/jamaica_constituencies/__init__.py:163-169 | exactly the rows whose lower-cased name contains the lower-cased query |
| Constituencies.FoundIsSearched | toolkit/jamaica-constituencies/python/jamaica_constituencies/__init__.py:155-169 | a constituency found by name is among the search hits for that name |
| Constituencies.ParishColumn | toolkit/jamaica-constituencies/python/jamaica_constituencies/__init__.py:180-181 | the parish of each row, in order |
| Constituencies.GetConstituencyCountByParish | toolkit/jamaica-constituencies/python/jamaica_constituencies/__init__.py:177-182 | each parish once, with its number of rows; the counts add up to the number of rows |
| Constituencies.InsertSorted | toolkit/jamaica-constituencies/python/jamaica_constituencies/__init__.py:190 | inserting a new text at its place keeps a strictly increasing list and adds exactly that text |
| Constituencies.LexLessAbove | toolkit/jamaica-constituencies/python/jamaica_constituencies/__init__.py:190 | a text below the head of a strictly increasing list is below all of it |
| Constituencies.SortedSet | toolkit/jamaica-constituencies/python/jamaica_constituencies/__init__.py:190 | `sorted` of a set: strictly increasing, holding exactly the set's texts |
| Constituencies.SortedUnique | toolkit/jamaica-constituencies/python/jamaica_constituencies/__init__.py:190 | two strictly increasing lists with the same texts are equal, so the sorted order is unique |
| Constituencies.SortedHead | toolkit/jamaica-constituencies/python/jamaica_constituencies/__init__.py:190 | the head of a strictly increasing list is its least text |
| Constituencies.SortedDistinctFromHead | toolkit/jamaica-constituencies/python/jamaica_constituencies/__init__.py:190 | no later element repeats the head |
| Constituencies.GetParishes | toolkit/jamaica-constituencies/python/jamaica_constituencies/__init__.py:185-190 | the distinct parishes of the table, in strictly increasing order |
| Emergency.GetEmergencyNumbers | toolkit/jamaica-emergency/python/jamaica_emergency/__init__.py:74-80 | ambulance and fire share one number, distinct from the police number |
| Emergency.MatchParishEquivalence | toolkit/jamaica-emergency/python/jamaica_emergency/__init__.py:174-175 | parish matching is reflexive, symmetric and transitive |
| Emergency.MatchParishIgnoresCaseAndPadding | toolkit/jamaica-emergency/python/jamaica_emergency/__init__.py:170-175 | a parish written in another case, with whitespace around it, still matches |
| Emergency.BlankQueryMatches | toolkit/jamaica-emergency/python/jamaica_emergency/__init__.py:178-179 | a query of nothing but whitespace matches every text |
| Emergency.GetPoliceStationsByParish | toolkit/jamaica-emergency/python/jamaica_emergency/__init__.py:202-204 | exactly the police stations whose parish matches |
| Emergency.GetFireStationsByParish | toolkit/jamaica-emergency/python/jamaica_emergency/__init__.py:217-219 | exactly the fire stations whose parish matches |
| Emergency.GetStations | toolkit/jamaica-emergency/python/jamaica_emergency/__init__.py:227-229 | the police stations followed by the fire stations, nothing else |
| Emergency.StationsByParishIsFilter | toolkit/jamaica-emergency/python/jamaica_emergency/__init__.py:232-234 | the parish's police stations then fire stations are all stations restricted to the parish, in order |
| Emergency.SearchStations | toolkit/jamaica-emergency/python/jamaica_emergency/__init__.py:257-267 | exactly the stations matching on name, parish, type, or division when there is one |
| Emergency.SearchStationsSplits | toolkit/jamaica-emergency/python/jamaica_emergency/__init__.py:259-267 | the police hits come before the fire hits |
| Emergency.BlankStationSearchReturnsAll | toolkit/jamaica-emergency/python/jamaica_emergency/__init__.py:257-267 | a blank query returns every station |
| Emergency.GetStationCount | toolkit/jamaica-emergency/python/jamaica_emergency/__init__.py:286-292 | the police and fire counts, and a total that is their sum and the number of stations listed |
| Emergency.GetSheltersByParish | toolkit/jamaica-emergency/python/jamaica_emergency/__init__.py:247-249 | exactly the shelters whose parish matches |
| Emergency.SearchShelters | toolkit/jamaica-emergency/python/jamaica_emergency/__init__.py:270-278 | exactly the shelters matching on name, parish or type |
| Emergency.ShelterSearchFindsParish | toolkit/jamaica-emergency/python/jamaica_emergency/__init__.py:247-278 | every shelter of a parish is found by searching for that parish |
| Emergency.BlankShelterSearchReturnsAll | toolkit/jamaica-emergency/python/jamaica_emergency/__init__.py:270-278 | a blank query returns every shelter |
| Banks.GetBank | toolkit/jamaica-banks/python/jamaica_banks/__init__.py:209-218 | the loop returns the first bank whose id, or lower-cased name, is the lower-cased argument; None exactly when no bank answers to it |
| Banks.BankNamedIgnoresCase | toolkit/jamaica-banks/python/jamaica_banks/__init__.py:214 | the lookup ignores the case of its argument |
| Banks.FirstAnsweringBankWins | toolkit/jamaica-banks/python/jamaica_banks/__init__.py:215-217 | the first bank answering to the argument is the one returned |
| Banks.GetSwiftCode | toolkit/jamaica-banks/python/jamaica_banks/__init__.py:248-253 | None for an unknown bank or a bank without a code; otherwise the code of the bank that `get_bank` returns for the argument (`BankNamed`) |
| Banks.GetBanksByType | toolkit/jamaica-banks/python/jamaica_banks/__init__.py:221-223 | exactly the banks of the type |
| Banks.GetCommercialBanks | toolkit/jamaica-banks/python/jamaica_banks/__init__.py:226-228 | the banks of the commercial type |
| Banks.TypesPartitionBanks | toolkit/jamaica-banks/python/jamaica_banks/__init__.py:221-223 | every bank has exactly one of the four types: the four lists together are as long as the directory |
| Banks.GetBankBranches | toolkit/jamaica-banks/python/jamaica_banks/__init__.py:236-239 | exactly the branches whose stored bank id is the lower-cased argument |
| Banks.GetBranchesByParish | toolkit/jamaica-banks/python/jamaica_banks/__init__.py:242-245 | exactly the branches whose lower-cased parish is the lower-cased argument |
| Banks.BranchFiltersCommute | toolkit/jamaica-banks/python/jamaica_banks/__init__.py:236-245 | the branches of a bank in a parish are the same whichever filter comes first |
| Banks.SearchBanks | toolkit/jamaica-banks/python/jamaica_banks/__init__.py:256-265 | exactly the banks whose lower-cased name or abbreviation, or stored id, contains the lower-cased query |
| Banks.FoundBankIsSearched | toolkit/jamaica-banks/python/jamaica_banks/__init__.py:209-265 | a bank the lookup finds is among the search hits for the same text |
| Transport.GetAirport | toolkit/jamaica-transport/python/jamaica_transport/__init__.py:378-384 | the loop returns the first airport whose IATA or ICAO code is the upper-cased argument; None exactly when none has it |
| Transport.AirportCodedIgnoresCase | toolkit/jamaica-transport/python/jamaica_transport/__init__.py:380-383 | two spellings of an upper-case code that differ only in case find the same, first matching airport |
| Transport.GetInternationalAirports | toolkit/jamaica-transport/python/jamaica_transport/__init__.py:387-389 | exactly the international airports |
| Transport.GetDomesticAirports | toolkit/jamaica-transport/python/jamaica_transport/__init__.py:392-394 | exactly the domestic airports |
| Transport.AirportsPartition | toolkit/jamaica-transport/python/jamaica_transport/__init__.py:387-394 | every airport is international or domestic, and the two lists together are the directory |
| Transport.SearchAirports | toolkit/jamaica-transport/python/jamaica_transport/__init__.py:397-407 | exactly the airports whose lower-cased name, IATA code, ICAO code or parish contains the lower-cased query |
| Transport.FoundAirportIsSearched | toolkit/jamaica-transport/python/jamaica_transport/__init__.py:378-407 | an airport found by code is among the search hits for that code |
| Transport.GetSeaport | toolkit/jamaica-transport/python/jamaica_transport/__init__.py:420-426 | the loop returns the first seaport whose lower-cased name contains the lower-cased argument; None exactly when none does |
| Transport.EmptyNameFindsFirstSeaport | toolkit/jamaica-transport/python/jamaica_transport/__init__.py:420-426 | the empty name finds the first seaport |
| Transport.GetVehicleClass | toolkit/jamaica-transport/python/jamaica_transport/__init__.py:439-445 | the loop returns the first class whose stored code is the upper-cased argument; None exactly when none has it |
| Transport.VehicleClassFoundByCode | toolkit/jamaica-transport/python/jamaica_transport/__init__.py:441-444 | a class with an upper-case code is found by any spelling of it; a class whose stored code is not upper case is never the one found |
| Transport.Highways | toolkit/jamaica-transport/python/jamaica_transport/__init__.py:287-309 | three highways, each with at least one segment |
| Transport.GetRoadNetwork | toolkit/jamaica-transport/python/jamaica_transport/__init__.py:311-318 | paved plus unpaved is the total, and main plus parochial roads is the paved length |
| FeeItems.Get | apps/ai-assistant-api/app/main.py:197-207 | `dict.get`: a present key gives a value stored under it, an absent key gives None |
| FeeItems.Title | apps/ai-assistant-api/app/main.py:214 | `str.title`: each letter is upper-cased after a non-letter and lower-cased after a letter, other characters kept |
| FeeItems.CaseKeepsLetters | apps/ai-assistant-api/app/main.py:214 | changing case keeps letters letters and non-letters non-letters |
| FeeItems.TitleAt | apps/ai-assistant-api/app/main.py:214 | title-casing twice agrees with title-casing once at each position |
| FeeItems.TitleIdempotent | apps/ai-assistant-api/app/main.py:214 | title-casing is idempotent |
| FeeItems.KeyLabel | apps/ai-assistant-api/app/main.py:214 | the key label keeps the key's length and holds no underscore |
| FeeItems.ExtraPart | apps/ai-assistant-api/app/main.py:214 | each extra part is non-empty |
| FeeItems.ExtraPartsSound | apps/ai-assistant-api/app/main.py:209-214 | every extra part comes from a key outside the skipped ones |
| FeeItems.ExtraPartsComplete | apps/ai-assistant-api/app/main.py:209-214 | every key outside the skipped ones contributes its part |
| FeeItems.ExtraPartsEmpty | apps/ai-assistant-api/app/main.py:209-214 | there are no extra parts exactly when every key is skipped |
| FeeItems.ExtraPartsNonEmpty | apps/ai-assistant-api/app/main.py:214 | no extra part is empty |
| FeeItems.CollectExtraParts | apps/ai-assistant-api/app/main.py:210-214 | the loop collects exactly the extra parts, at most one per key |
| FeeItems.NoteText | apps/ai-assistant-api/app/main.py:207-216 | a falsy note gives the empty text and a text note gives itself; any other note has no text form |
| FeeItems.CombinedNoteIsJoin | apps/ai-assistant-api/app/main.py:216-221 | the combined note is the note, when non-empty, followed by the extra parts, joined with "; " |
| FeeItems.CombinedNoteEmpty | apps/ai-assistant-api/app/main.py:216-221 | the combined note is empty exactly when the note and the extra parts are |
| FeeItems.DictItemNote | apps/ai-assistant-api/app/main.py:216-228 | the item's note is None exactly when the note is empty and every key is skipped; otherwise it is the combined note |
| FeeItems.DictRejectsNonTextNote | apps/ai-assistant-api/app/main.py:216-221 | a truthy note that is not text makes the dictionary form fail |
| FeeItems.ParsedFeeItems | apps/ai-assistant-api/app/main.py:189-232 | a list gives one item per entry with its fields copied, failing exactly when an entry is not a dictionary; a dictionary gives one item; anything else gives no item |
| FeeItems.ParseEntries | apps/ai-assistant-api/app/main.py:193-203 | the loop over the entries computes the list form |
| FeeItems.ParseFeeDict | apps/ai-assistant-api/app/main.py:204-230 | the method computes the dictionary form |
| FeeItems.ParseFeeItems | apps/ai-assistant-api/app/main.py:189-232 | the method computes the normaliser |

## Left out

- Floating point: amounts, rates and coordinates are exact `real`s, so binary rounding error, NaN and infinity are not modelled. The tax calculators' checks for NaN and infinity (`_assert_non_negative`) therefore reduce to the negative check.
- Great-circle distance: the haversine functions are trigonometry on floats. They are not modelled. Every nearest-point operation takes the distance as a function parameter and states its result relative to it.
- Regular expressions: each pattern the source uses is written out as a character-level function. No general regular-expression engine is modelled. `_escape_regex` is not needed, because the alias names are matched as plain text.
- Case mapping: `lower`, `upper` and `title` change only ASCII letters. Unicode case rules are not modelled. Whitespace (`strip`, `split`, the regex class `\s`) is the full set that Python's `str.isspace()` accepts.
- Regex character classes: `\d`, `\D`, `\w` and `\b` are read as ASCII (digits 0-9; letters, digits and underscore). Python's `re` reads them over Unicode for text patterns, so input written in other scripts' digits is not modelled as the source treats it. For example, nine Arabic-Indic digits match `^\d{9}$` and `format_trn` formats them, while Trn.Format returns ValueError.
- Randomness, clocks and identifiers:
  - `random` in `generate_test_trn` becomes the list of drawn prefixes, passed in.
  - `uuid4().hex` in `SessionStore.get_or_create` becomes the fresh id, passed in.
  - Python's `datetime` is replaced by the model's own day-number calendar.
  - The `str(v)` rendering of a JSON value in `_parse_fee_items` becomes a function, passed in.
- Trn.GenerateTestTrn: `generate_test_trn` retries forever. Here the retries end when the drawn prefixes run out, and the result is then None.
- Sessions.SessionStore: modelled single-threaded. The store is documented as thread-safe but has no locking, so there is nothing to model.
- Framework glue is not part of this model: the HTTP routes, the Pydantic models, the settings, `plus_codes.py` (a wrapper over an external library), `rag.py` (external vector store and language model), `data_loader.py` (JSON file input) and the constants and re-export packages.
- FeeItems.ParsedFeeItems: Pydantic's coercion of each FeeItem field to its declared type is not modelled. Fields keep their JSON values. Only the rejection of a note that is not text is modelled, as a ValidationError.
- Directory rows:
  - The schools, places, emergency stations and shelters, banks and branches, airports, seaports and vehicle classes are not transcribed. Their operations take the row list as a parameter, and the lemmas hold for every list. The two places named Retreat are the exception: they are transcribed for Places.RetreatIsStMary.
  - The parish, health-facility, constituency, fee-schedule, holiday and geocoder-index tables are transcribed.
- Trivial getters that return a stored list, a stored value or its length are not modelled separately: `get_banks`, `get_branches`, `get_bank_count`, `get_branch_count`, `get_airports`, `get_seaports`, `get_vehicle_classes`, `get_highways`, `get_licence_plate_prefixes`, `get_police_stations`, `get_fire_stations`, `get_disaster_shelters`, `get_shelter_count`, `get_schools`, `get_school_count`, `get_places`, `get_place_count`, `get_constituencies`, `get_tax_threshold` and the parish resolver's `get_all_parishes`.
- Places.GetPlaceCountByParish, Schools.GetSchoolCountByParish and Constituencies.GetConstituencyCountByParish state each key's count and that the counts add up. They do not state the dictionary's key order (order of first appearance).
- GovFees.GetAllFees: the contract names the entries through the section functions (`PassportSections`, `NiraFees`, `TajFees`, `ItaFees`, `OtherFees`). It does not state the total of 73 entries separately.
- Tax.Payroll: the default period "monthly" is not modelled. The caller always names the period.
- GovFees.GetPassportFee: the default office "kingston" is not modelled. The caller always names the office, and passing "kingston" gives the default's result.
- Holidays.GetHolidays, Holidays.IsPublicHoliday and Holidays.IsBusinessDay: the source raises ValueError for a year below 1000 and for a year above 9999. It builds the fixed dates as `f"{year}-01-01"` and parses them back with `fromisoformat`, which needs a four-digit year, and `date` refuses years past 9999. The model computes the list for every year from 1 on.
- Holidays.GetHolidaysFacts: the ten holidays are stated for every year from 1 on, including the years where the source raises ValueError.
- Holidays.GetNextHoliday: for a date in a year outside 1000-9999, and for a date in 9999 after that year's last holiday, the source raises ValueError. The model returns a holiday, the second case from year 10000's list.
- Holidays.GetWorkingDays: a range holding a weekday in a year outside 1000-9999 raises ValueError in the source, which looks that year's holidays up. The model counts it as for any other year.
- FeeItems.Get: a JSON object is modelled as its list of key-value pairs. With a repeated key, Get returns the first value, while Python's `json` keeps the last. Objects with distinct keys, which is what a dictionary holds, behave the same.
- Tax.IncomeTax: the effective rate is stated only for incomes at or below the threshold, where it is 0. Elsewhere the rate is a rounded quotient of floats.
- Currency.JmdToUsd and Currency.UsdToJmd: the results are stated within half a unit of the last kept decimal of the exact quotient or product, not digit for digit.
- Parishes.ParishesWithService: the service is an enumeration, so the AttributeError that `getattr` raises for an unknown service name is not modelled.
