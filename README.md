# MotorCare Insurance quote flow — a Dafny model

MotorCare Insurance is a single-page web application. A user gets a motor insurance quote in five steps:
vehicle details, driver details, coverage options, quote summary and download.
This project models the application's logic core in Dafny and proves properties of it:

- **Progress tracker** (`Progress`): a class over the stored map from step key to percentage.
  It has the five step weights, the clamped update, the read with a 0 default, the reset and the weighted, rounded global progress.
- **Step statuses** (`StepStatus`): the progress bar's `getStepStatus` bands.
- **Coverage page** (`Coverage`):
  - the fixed catalog;
  - the premium estimate, with the vehicle multiplier, the excess adjustment floored at 80%, the policy-period multiplier and `Math.round`;
  - the selection toggle;
  - the submit guard and save.
- **Validators and submit handlers** of the vehicle details page (`Vehicle`), the driver details page (`Driver`), the registration page (`Register`) and the login page (`Login`).
  Shared support:
  - `Contact` holds the email and Zambian phone rules;
  - `Forms` holds the error-map and missing-field loops and the banner text;
  - `Text` holds the character classes, `replace(/\s/g, '')`, `toUpperCase`, `indexOf`, `join` and `parseInt`;
  - `Auth` holds the stored sign-in flags and the post-sign-in redirect.

How the model represents the application:

- Browser storage keys are objects: a `Progress.ProgressTracker` for `quoteProgress`, a `Storage.Slot` for each saved record, and an `Auth.Session` for the sign-in keys.
  Submit handlers change them in place through `modifies` clauses.
- Loops in the source (the weighted sum, the premium accumulation, the validation loops) are `while` loops.
  Each is proved against a left-fold function whose properties are proved as lemmas.
- The email expression and the registration-number expression each have two definitions.
  One is a ghost predicate that says what the expression denotes, with explicit split points.
  The other is a direct, greedy test.
  A lemma proves they are equivalent.
- The phone expression has one definition, `Contact.MatchesPhonePattern`, written for the value with its whitespace already removed, as the rule applies it.
  Its optional `\s?` groups are therefore not modelled.
- The password lookaheads are modelled as "some character is in the class" (`Text.Any`), without a regular-expression definition.
- Values the application reads from the clock or from other pages are parameters:
  - the current year and today's date;
  - the saved vehicle type;
  - the pending-login flag;
  - the verdicts of the clock-dependent date validators.

Where the code and the product description disagree, the model follows the code:

- With no saved vehicle details the premium multiplier stays at 1. Only an unrecognised vehicle type gets 1.2.
- An empty selection with an excess below 5000 has a positive premium, not 0 (`Coverage.EmptySelectionPremium`).
- The premium is never negative under the page's catalog (`Coverage.PagePremiumNonNegative`).
- The registration-number check is "required" on the raw value. So "" and " " get different messages (`Vehicle.EmptyAndBlankNumbersDiffer`), and the verdict depends only on the cleaned value only when the value is non-empty.
- The driver form's phone placeholder mentions "0955 123 456", and the phone rule rejects it (`Contact.LocalPlaceholderRejected`).

## Model

| member | source | states |
|---|---|---|
| Numeric.Clamp | src/utils/progressTracker.js:31 | `Math.min(100, Math.max(0, v))` lies in [0,100], keeps in-range values, sends negatives to 0 and values above 100 to 100 |
| Numeric.MaxReal | src/pages/CoverageOptions.jsx:170 | `Math.max` is an upper bound of both arguments and equal to one of them |
| Numeric.RoundIsNearest | src/utils/progressTracker.js:26 | `Math.round(x)` is within half a unit of `x`, halves rounding up |
| Numeric.RoundOfInteger | src/pages/CoverageOptions.jsx:176 | rounding an integer gives it back |
| Numeric.RoundMonotone | src/pages/CoverageOptions.jsx:176 | rounding preserves order |
| Numeric.RoundNonNegative | src/pages/CoverageOptions.jsx:176 | a non-negative amount rounds to a non-negative integer |
| Storage.Slot.constructor | src/pages/VehicleDetails.jsx:337 | a storage key that was never written holds no record |
| Progress.ProgressTracker.constructor | src/utils/progressTracker.js:18 | a store with no `quoteProgress` entry reads as the empty object |
| Progress.ProgressTracker.GetStepProgress | src/utils/progressTracker.js:39-42 | a step never written reads 0; with stored values in range the read is in [0,100] |
| Progress.ProgressTracker.UpdateStepProgress | src/utils/progressTracker.js:29-33 | stores the clamped value under `step` and nothing else; afterwards `getStepProgress(step)` is `min(100, max(0, v))`, every other step reads as before, and the in-range invariant is kept |
| Progress.ProgressTracker.ResetProgress | src/utils/progressTracker.js:35-37 | the store is empty, every step reads 0 and global progress is 0 |
| Progress.ProgressTracker.GetGlobalProgress | src/utils/progressTracker.js:17-27 | the loop's result is `min(100, round(Σ p[s]·w[s]/100))` over the five weighted steps, equal to `min(100, (Σ p[s]·w[s] + 50) div 100)`, and in [0,100] for in-range values |
| Progress.StepWeightsSumTo100 | src/utils/progressTracker.js:9-15 | the five weights sum to 100, are positive, and are keyed by exactly the five steps |
| Progress.RoundHundredths | src/utils/progressTracker.js:23-26 | rounding a whole number of hundredths equals adding 50 and dividing by 100 |
| Progress.GlobalProgress | src/utils/progressTracker.js:17-27 | `getGlobalProgress()` of a stored object; its closed form, bounds, monotonicity and ignored keys are stated by `Progress.GlobalProgressIsRounded`, `Progress.GlobalProgressBounds`, `Progress.GlobalProgressMonotone` and `Progress.OtherKeysIgnored` |
| Progress.WeightedTotalIsSum | src/utils/progressTracker.js:19-24 | the fold over the steps equals the weighted sum divided by 100 |
| Progress.GlobalProgressIsRounded | src/utils/progressTracker.js:17-27 | global progress in closed form, with integer arithmetic |
| Progress.GlobalProgressBounds | src/utils/progressTracker.js:26 | in-range stored values give a global progress in [0,100] |
| Progress.OtherKeysIgnored | src/utils/progressTracker.js:21 | a key outside the five steps cannot change the global progress |
| Progress.UnwrittenStepCountsAsZero | src/utils/progressTracker.js:22 | a step never written counts as 0 |
| Progress.GlobalProgressMonotone | src/utils/progressTracker.js:21-26 | raising one step's stored value never lowers the global progress |
| Progress.EmptyStoreIsZero | src/utils/progressTracker.js:17-27 | an empty store gives 0 |
| Progress.AllStepsCompleteIs100 | src/utils/progressTracker.js:9-27 | all five steps at 100 give 100 |
| Progress.VehicleOnlyIs25 | src/utils/progressTracker.js:9-27 | only vehicle_details at 100 gives 25 |
| Progress.HalfDownloadIs5 | src/utils/progressTracker.js:9-27 | only download at 50 gives 5 |
| StepStatus.IndexOfStep | src/components/GlobalProgress.jsx:32-33 | `indexOf` is -1 exactly when the key is absent, and otherwise the first position of the key |
| StepStatus.GetStepStatus | src/components/GlobalProgress.jsx:30-42 | `getStepStatus(stepKey)`: the band of the key's position under the global progress; the bands and their order are stated by `StepStatus.StatusBands` and `StepStatus.StatusesOrdered` |
| StepStatus.StatusBands | src/components/GlobalProgress.jsx:35-41 | index i is completed iff progress ≥ 20(i+1), active iff 20i ≤ progress < 20(i+1), pending iff progress < 20i |
| StepStatus.FirstStepNeverPending | src/components/GlobalProgress.jsx:37-38 | for progress ≥ 0 the first step is never pending |
| StepStatus.StatusesOrdered | src/components/GlobalProgress.jsx:35-41 | in step order: completed before, pending after, and at most one active step |
| StepStatus.StepPositions | src/components/GlobalProgress.jsx:32-33 | the five steps sit at positions 0..4 in declaration order |
| StepStatus.AllCompleteAt100 | src/components/GlobalProgress.jsx:35-36 | at global progress 100 all five steps are completed |
| StepStatus.FreshStoreStatuses | src/components/GlobalProgress.jsx:35-41 | with an empty store, vehicle is active and the other four steps are pending |
| StepStatus.BandsIgnoreWeights | src/components/GlobalProgress.jsx:31-38 | vehicle-only progress (25) makes vehicle completed, driver active and coverage pending |
| StepStatus.UnknownStepCompleted | src/components/GlobalProgress.jsx:33-36 | a key outside the steps has index -1 and is always completed |
| Coverage.FindById | src/pages/CoverageOptions.jsx:162 | `find` returns the first catalog entry with that id, or none when no entry has it |
| Coverage.Premium | src/pages/CoverageOptions.jsx:135-177 | the premium `calculatePremium` sets; it is the result of `Coverage.CalculatePremium`, and its bounds and monotonicity are stated by `Coverage.PremiumNonNegative` and `Coverage.PremiumNonIncreasingInExcess` |
| Coverage.CalculatePremium | src/pages/CoverageOptions.jsx:135-177 | the switch, the accumulation loop, the excess step, the period step and the rounding compute the premium function; non-negative for a catalog of non-negative prices |
| Coverage.CatalogFacts | src/pages/CoverageOptions.jsx:31-111 | the catalog's base premiums are non-negative and its ids are distinct |
| Coverage.VehicleMultiplier | src/pages/CoverageOptions.jsx:138-159 | the vehicle-type `switch`; every case is stated by `Coverage.MultiplierTable` |
| Coverage.MultiplierTable | src/pages/CoverageOptions.jsx:138-159 | 1 without vehicle details; private_car 1, commercial_vehicle 1.3, motorcycle 0.8, truck 1.5, bus 1.8, any other type 1.2; always positive |
| Coverage.PreExcessTotalAppend | src/pages/CoverageOptions.jsx:161-166 | the accumulated total over a concatenated selection is the sum of the two totals |
| Coverage.UnknownIdAddsNothing | src/pages/CoverageOptions.jsx:162-165 | a selected id that is not in the catalog adds nothing |
| Coverage.PreExcessTotalNonNegative | src/pages/CoverageOptions.jsx:161-166 | non-negative prices and multiplier give a non-negative total |
| Coverage.ExcessFloor | src/pages/CoverageOptions.jsx:169-170 | the excess step never takes the total below 80% of itself, and keeps it non-negative |
| Coverage.LowExcessUsesDiscount | src/pages/CoverageOptions.jsx:169-170 | with an excess of at most 5000, the excess step subtracts the (non-positive) discount |
| Coverage.PremiumNonNegative | src/pages/CoverageOptions.jsx:135-177 | non-negative catalog prices give a non-negative premium |
| Coverage.ExcessMonotone | src/pages/CoverageOptions.jsx:169-170 | a larger excess never increases the adjusted total |
| Coverage.PeriodScalingMonotone | src/pages/CoverageOptions.jsx:173-174 | the period multiplier preserves order |
| Coverage.PagePremiumNonNegative | src/pages/CoverageOptions.jsx:31-177 | with the page's own catalog the premium is never negative |
| Coverage.PremiumNonIncreasingInExcess | src/pages/CoverageOptions.jsx:169-176 | raising the excess never raises the premium |
| Coverage.EmptySelectionPremium | src/pages/CoverageOptions.jsx:161-176 | an empty selection costs `round(max(0, (5000 - excess)·0.01)·periodMultiplier)` |
| Coverage.EmptySelectionExamples | src/pages/CoverageOptions.jsx:161-176 | an empty selection costs 50 at excess 0 for 12 months, and 0 at excess 5000 |
| Coverage.ComprehensivePrivateCar | src/pages/CoverageOptions.jsx:31-177 | comprehensive cover for a private car, excess 5000, 12 months costs 15000 |
| Coverage.RoadsideLookup | src/pages/CoverageOptions.jsx:95-98 | looking up roadside_assistance finds the catalog's last entry |
| Coverage.ComprehensiveAndRoadsideTruck24 | src/pages/CoverageOptions.jsx:31-177 | comprehensive plus roadside assistance for a truck, excess 5000, 24 months costs 44550 |
| Coverage.RemoveAll | src/pages/CoverageOptions.jsx:182 | `filter(id => id !== coverageId)` removes every copy of the id and keeps every other id |
| Coverage.ToggleCoverage | src/pages/CoverageOptions.jsx:179-186 | `handleCoverageToggle`: filter out a selected id, append an unselected one; stated by `Coverage.ToggleFlipsMembership`, `Coverage.ToggleKeepsOthersInOrder` and `Coverage.ToggleKeepsNoDuplicates` |
| Coverage.ToggleFlipsMembership | src/pages/CoverageOptions.jsx:179-186 | the toggle flips the id's membership and leaves every other id's membership alone |
| Coverage.RemoveAllAbsent | src/pages/CoverageOptions.jsx:182 | filtering an absent id changes nothing |
| Coverage.RemoveAllAppend | src/pages/CoverageOptions.jsx:182 | filtering distributes over concatenation |
| Coverage.ToggleKeepsOthersInOrder | src/pages/CoverageOptions.jsx:179-186 | apart from the toggled id, the selection keeps its order |
| Coverage.RemoveAllKeepsNoDuplicates | src/pages/CoverageOptions.jsx:182 | filtering keeps a duplicate-free selection duplicate-free |
| Coverage.ToggleKeepsNoDuplicates | src/pages/CoverageOptions.jsx:179-186 | toggling keeps a duplicate-free selection duplicate-free |
| Coverage.ToggleTwiceRestores | src/pages/CoverageOptions.jsx:179-186 | adding then removing a new id restores the selection |
| Coverage.SubmitCoverage | src/pages/CoverageOptions.jsx:194-217 | an empty selection is refused and nothing changes; otherwise the record with the computed premium is saved and coverage_options is set to 100 |
| Contact.EmailPartsCover | src/pages/DriverDetails.jsx:172 | in a match of the email expression every character except the '@' is a `[^\s@]` character |
| Contact.EmailCharsBetween | src/pages/DriverDetails.jsx:172 | a stretch without whitespace and without '@' consists of `[^\s@]` characters |
| Contact.EmailSplitPoints | src/pages/DriverDetails.jsx:172 | a string passing the direct test has its first '@' after a non-empty local part, a '.' strictly inside the domain, and no other '@' |
| Contact.PatternImpliesDirectTest | src/pages/DriverDetails.jsx:172 | every string the email expression accepts passes the direct test |
| Contact.DirectTestImpliesPattern | src/pages/DriverDetails.jsx:172 | every string that passes the direct test is accepted by the email expression |
| Contact.EmailPatternIsDirectTest | src/pages/DriverDetails.jsx:172 | the email expression and the direct test accept the same strings |
| Contact.ValidateEmail | src/pages/DriverDetails.jsx:169-177 | the shared email rule: required, then the pattern; stated by `Contact.ValidateEmailAccepts` |
| Contact.ValidateEmailAccepts | src/pages/DriverDetails.jsx:169-177 | an email is accepted iff it matches `^[^\s@]+@[^\s@]+\.[^\s@]+$`; then it has exactly one '@', no whitespace, a non-empty local part, and a '.' strictly inside the domain |
| Contact.EmailAcceptedExample | src/pages/DriverDetails.jsx:169-177 | "jo@mail.zm" is accepted |
| Contact.EmptyEmailRequired | src/pages/DriverDetails.jsx:169-177 | "" is reported as required |
| Contact.DotlessDomainRejected | src/pages/DriverDetails.jsx:169-177 | "jo@mail", with no '.' in the domain, is malformed |
| Contact.SecondAtRejected | src/pages/DriverDetails.jsx:169-177 | "a@b@c.d", with a second '@', is malformed |
| Contact.ValidatePhone | src/pages/DriverDetails.jsx:179-187 | the shared phone rule: required, then the pattern on the value without whitespace; stated by `Contact.PhoneLengths` and `Contact.PhoneIgnoresWhitespace` |
| Contact.PhoneLengths | src/pages/DriverDetails.jsx:179-187 | an accepted number has 9 or 13 characters once whitespace is removed |
| Contact.PhoneIgnoresWhitespace | src/pages/DriverDetails.jsx:182-183 | two non-empty values equal after whitespace removal get the same verdict |
| Contact.StripThreeWords | src/pages/DriverDetails.jsx:183 | removing whitespace from three space-separated words concatenates them |
| Contact.StripFourWords | src/pages/DriverDetails.jsx:183 | removing whitespace from four space-separated words concatenates them |
| Contact.NineDigitSubscriberNumber | src/pages/DriverDetails.jsx:182 | "955123456" is a nine-digit number starting with 9 |
| Contact.CountryCodeHasNoWhitespace | src/pages/DriverDetails.jsx:182 | the country code "+260" contains no whitespace |
| Contact.PrefixedNumberMatches | src/pages/DriverDetails.jsx:182 | "+260" directly followed by a nine-digit number starting with 9 or 0 matches the pattern |
| Contact.InternationalGroupsAccepted | src/pages/DriverDetails.jsx:179-187 | "+260" followed by a nine-digit number written in three space-separated groups is accepted |
| Contact.LocalPlaceholderRejected | src/pages/DriverDetails.jsx:411 | the placeholder's local form "0955 123 456" is rejected: it has ten digits |
| Contact.InternationalPlaceholderAccepted | src/pages/DriverDetails.jsx:411 | the placeholder's international form "+260 955 123 456" is accepted |
| Text.StripWhitespace | src/pages/VehicleDetails.jsx:230 | `replace(/\s/g, '')` leaves no whitespace, is no longer than its input, and keeps only input characters |
| Text.StripWithoutWhitespace | src/pages/VehicleDetails.jsx:230 | removing whitespace from a string that has none changes nothing |
| Text.StripAppend | src/pages/DriverDetails.jsx:183 | whitespace removal distributes over concatenation |
| Text.ToUpper | src/pages/VehicleDetails.jsx:230 | `toUpperCase` keeps the length and upper-cases each letter in place |
| Text.Run | src/pages/VehicleDetails.jsx:234 | the longest prefix of one character class: every character in it is in the class, and the next one is not |
| Text.RunUnique | src/pages/VehicleDetails.jsx:234 | any prefix of the class that stops at a character outside the class is the longest one |
| Text.IndexOf | src/components/GlobalProgress.jsx:33 | -1 exactly when the character is absent, otherwise its first position |
| Text.IndexOfUnique | src/components/GlobalProgress.jsx:33 | a position holding the character with no earlier copy is what `indexOf` returns |
| Text.UpperCharKeepsClass | src/pages/VehicleDetails.jsx:230 | upper-casing keeps whitespace and digits in their class and sends every letter to an uppercase letter |
| Text.DropLeadingWhitespace | src/pages/VehicleDetails.jsx:191 | `parseInt` skips leading whitespace: what remains is a suffix of the input that is empty or starts with a non-whitespace character |
| Text.DigitsValue | src/pages/VehicleDetails.jsx:191 | the value of a run of decimal digits is non-negative |
| Text.HexValue | src/pages/VehicleDetails.jsx:191 | the value of a run of hexadecimal digits is non-negative |
| Text.ParseInt | src/pages/VehicleDetails.jsx:191 | `parseInt` yields a number only for a non-empty string (the empty string gives `NaN`) |
| Text.Decimal | src/pages/VehicleDetails.jsx:20 | `toString()` of a natural number is a non-empty string of decimal digits |
| Text.MagnitudeOfNumeral | src/pages/VehicleDetails.jsx:191 | reading the digits of a decimal numeral gives the numeral's value |
| Text.ParseIntOfNumeral | src/pages/VehicleDetails.jsx:191 | `parseInt` of a string of decimal digits is the value of that numeral |
| Text.ParseIntDecimal | src/pages/VehicleDetails.jsx:20 | `parseInt(String(n))` is `n` |
| Text.ParseIntNegative | src/pages/VehicleDetails.jsx:191 | a leading '-' negates whatever magnitude follows it, and a missing magnitude stays `NaN` |
| Text.ParseIntNegatedNumeral | src/pages/DriverDetails.jsx:145 | '-' followed by decimal digits parses to the negated value, so a negative count of years is read as negative |
| Text.NoLeadingWhitespace | src/pages/VehicleDetails.jsx:191 | a string starting with a non-whitespace character is read from its first character |
| Text.ParseMagnitude | src/pages/VehicleDetails.jsx:191 | a magnitude is read only from non-empty text and is never negative |
| Text.DecimalValue | src/pages/VehicleDetails.jsx:20 | the decimal numeral of `n` has the value `n` |
| Forms.ErrorsOfStep | src/pages/VehicleDetails.jsx:299-307 | one iteration of a validation loop adds the next field's error, if any, and leaves the rest of the map alone |
| Forms.ErrorsOfSnoc | src/pages/DriverDetails.jsx:258-266 | validating one more field adds its error, if any, to the map |
| Forms.EmptyFieldsStep | src/pages/VehicleDetails.jsx:302-304 | one iteration appends the next field to the missing list exactly when it is empty |
| Forms.ErrorsOfEntries | src/pages/VehicleDetails.jsx:299-307 | the error map built over a field list has an entry exactly for each listed field that fails, holding its error |
| Forms.EmptyFieldsMembers | src/pages/VehicleDetails.jsx:302-304 | the missing-field list holds exactly the empty fields of the list |
| Text.Join | src/pages/VehicleDetails.jsx:327 | `parts.join(sep)`; stated by `Text.JoinSnoc`, `Text.JoinLength` and `Forms.SingleMissingLabel` |
| Text.JoinSnoc | src/pages/VehicleDetails.jsx:327 | joining one more part appends the separator and that part |
| Text.JoinLength | src/pages/VehicleDetails.jsx:327 | the joined string is as long as all parts plus one separator between each two neighbours |
| Forms.SubmitMessage | src/pages/VehicleDetails.jsx:318-335 | the banner is 'Please correct the errors before continuing' exactly when no label is missing; otherwise it is the source's fill-in template, taken as written, with the labels joined by ", " (their content is stated by `Text.JoinSnoc`, `Text.JoinLength` and `Forms.SingleMissingLabel`) |
| Forms.SingleMissingLabel | src/pages/VehicleDetails.jsx:327-328 | one missing field gives the prefix followed by its label alone |
| Vehicle.ValidateYear | src/pages/VehicleDetails.jsx:190-202 | the year rule; every verdict is stated by `Vehicle.ValidateYearVerdicts` |
| Vehicle.ValidateYearVerdicts | src/pages/VehicleDetails.jsx:190-202 | null iff the year parses and 1950 ≤ y ≤ currentYear+1; 'required' iff it does not parse; the lower bound is checked before the upper |
| Vehicle.DefaultYearValidates | src/pages/VehicleDetails.jsx:20 | the form's initial year, the current year as text, validates |
| Vehicle.PatternImpliesFormat | src/pages/VehicleDetails.jsx:234 | a split into 2–4 letters, 2–4 digits and 0–3 letters passes the greedy test |
| Vehicle.FormatImpliesPattern | src/pages/VehicleDetails.jsx:234 | a string passing the greedy test has that split |
| Vehicle.RegistrationFormatIsPattern | src/pages/VehicleDetails.jsx:234 | the greedy test accepts exactly what `^[A-Z]{2,4}\d{2,4}[A-Z]{0,3}$` accepts |
| Vehicle.ValidateRegistrationNumber | src/pages/VehicleDetails.jsx:224-246 | the registration-number rule; stated by `Vehicle.RegistrationNumberAccepted`, `Vehicle.TooShortOnlyForShortMatches` and `Vehicle.OnlyCleanedNumberMatters` |
| Vehicle.RegistrationNumberAccepted | src/pages/VehicleDetails.jsx:224-246 | null iff the value is non-empty and its cleaned form matches the pattern and has at least 6 characters |
| Vehicle.AcceptedRegistrationLengths | src/pages/VehicleDetails.jsx:234-243 | accepted cleaned numbers have 6 to 11 characters |
| Vehicle.TooShortOnlyForShortMatches | src/pages/VehicleDetails.jsx:236-243 | the length message appears iff the cleaned value matches the pattern with 4 or 5 characters |
| Vehicle.StripCommutesWithUpper | src/pages/VehicleDetails.jsx:230 | removing whitespace and upper-casing commute |
| Vehicle.UpperIdempotent | src/pages/VehicleDetails.jsx:230 | upper-casing twice is upper-casing once |
| Vehicle.OnlyCleanedNumberMatters | src/pages/VehicleDetails.jsx:225-230 | non-empty values with the same cleaned form get the same verdict |
| Vehicle.UpperCaseIsIrrelevant | src/pages/VehicleDetails.jsx:230 | upper-casing a value before validation never changes the verdict |
| Vehicle.SplitNumberVerdict | src/pages/VehicleDetails.jsx:234-245 | a value already in the pattern's three runs is accepted when it has 6 or more characters, and is too short otherwise |
| Vehicle.PlainExampleAccepted | src/pages/VehicleDetails.jsx:237 | "ABC123" is accepted |
| Vehicle.SuffixExampleAccepted | src/pages/VehicleDetails.jsx:237 | "ABC123ZM" is accepted |
| Vehicle.FourDigitExampleAccepted | src/pages/VehicleDetails.jsx:237 | "ABC1234" is accepted |
| Vehicle.FourCharacterMatchRejected | src/pages/VehicleDetails.jsx:241-243 | "AB12" matches the pattern but gets the length message |
| Vehicle.FiveCharacterMatchRejected | src/pages/VehicleDetails.jsx:241-243 | "ABC12" matches the pattern but gets the length message |
| Vehicle.CleanOfCapitalsAndDigits | src/pages/VehicleDetails.jsx:230 | a string of capitals and digits is unchanged by cleaning |
| Vehicle.EmptyAndBlankNumbersDiffer | src/pages/VehicleDetails.jsx:225-237 | "" is reported missing and " " malformed |
| Vehicle.ValidateField | src/pages/VehicleDetails.jsx:248-265 | `validateField` of the vehicle page; its cases are stated by `Vehicle.FieldRules` and `Vehicle.EmptyRequiredFieldFails` |
| Vehicle.FieldRules | src/pages/VehicleDetails.jsx:248-265 | vehicleType, make and model fail iff empty; fields without a rule always validate; an empty registration date validates |
| Vehicle.EmptyRequiredFieldFails | src/pages/VehicleDetails.jsx:295-304 | every required field fails when empty |
| Forms.Labels | src/pages/VehicleDetails.jsx:320-327 | `missingFields.map(field => fieldLabels[field])`: each missing field maps, in order, to its label |
| Vehicle.CollectRequiredErrors | src/pages/VehicleDetails.jsx:295-307 | the loop builds the error map over the required fields and the list of the empty ones, in order |
| Vehicle.CollectErrors | src/pages/VehicleDetails.jsx:294-314 | the loop and the date check build the submit error map and the list of empty required fields in order |
| Vehicle.SubmitErrorsKeys | src/pages/VehicleDetails.jsx:295-314 | the error map has an entry exactly for each failing required field and for a filled-in date that fails, holding its error |
| Vehicle.MissingAreEmptyRequired | src/pages/VehicleDetails.jsx:302-304 | the missing list holds exactly the empty required fields |
| Vehicle.MissingFieldHasError | src/pages/VehicleDetails.jsx:299-307 | every missing field also has an error entry |
| Vehicle.SubmitVehicle | src/pages/VehicleDetails.jsx:294-347 | with errors: the error map and banner are returned and nothing is stored or progressed; without: the form is stored and vehicle_details is set to 100 |
| Vehicle.SavedIffAllValid | src/pages/VehicleDetails.jsx:294-316 | the form is saved iff every required field validates and a filled-in registration date passes |
| Vehicle.InputChange | src/pages/VehicleDetails.jsx:267-285 | the edited field takes the value, a make change also empties the model, and only the edited field's error is replaced by its verdict: the stored error is exactly the one `validateField` returns, and a null verdict removes the entry |
| Vehicle.MakeChangeRequiresModel | src/pages/VehicleDetails.jsx:273-304 | after the make changes, submitting reports the model as missing and required |
| Driver.Age | src/pages/DriverDetails.jsx:88-93 | the year difference less one before this year's birthday; stated by `Driver.AgeCountsBirthdays` and `Driver.AgeMonotone` |
| Driver.AgeCountsBirthdays | src/pages/DriverDetails.jsx:88-93 | the computed age is the number of birthdays reached: the last one is not after today, the next one is |
| Driver.AgeMonotone | src/pages/DriverDetails.jsx:88-93 | a later today never gives a smaller age |
| Driver.ValidateDateOfBirth | src/pages/DriverDetails.jsx:84-105 | the date-of-birth rule; stated by `Driver.DateOfBirthAccepted` and `Driver.FutureBirthMessageUnreachable` |
| Driver.DateOfBirthAccepted | src/pages/DriverDetails.jsx:84-105 | a date of birth is accepted iff the age is between 18 and 80 |
| Driver.FutureBirthMessageUnreachable | src/pages/DriverDetails.jsx:95-103 | the future-date message never appears: a future date gives an age below 18 |
| Driver.ValidateYearsOfExperience | src/pages/DriverDetails.jsx:142-167 | the years-of-experience rule; stated by `Driver.ExperienceAccepted` and `Driver.ExperienceWithoutBirthDate` |
| Driver.ExperienceAccepted | src/pages/DriverDetails.jsx:142-167 | a non-empty value is accepted iff it parses, lies in [0,50], and with a birth date is at most `max(0, yearDiff − 16)` |
| Driver.ExperienceIgnoresBirthMonthAndDay | src/pages/DriverDetails.jsx:156-159 | the experience bound reads only the birth year |
| Driver.ExperienceWithoutBirthDate | src/pages/DriverDetails.jsx:142-155 | without a birth date, a parsed value is accepted iff it lies in [0,50] |
| Driver.ValidateField | src/pages/DriverDetails.jsx:189-214 | `validateField` of the driver page; its cases are stated by `Driver.FieldRules`, `Driver.EmptyRequiredFieldFails` and `Driver.BlankOptionalFieldPasses` |
| Driver.FieldRules | src/pages/DriverDetails.jsx:189-214 | firstName, lastName, licenseNumber and licenseType fail iff empty; fields without a rule always validate |
| Driver.EmptyRequiredFieldFails | src/pages/DriverDetails.jsx:244-256 | every required field fails when empty |
| Driver.BlankOptionalFieldPasses | src/pages/DriverDetails.jsx:258-266 | an empty optional field validates, so checking only filled-in ones changes nothing |
| Driver.CollectRequiredErrors | src/pages/DriverDetails.jsx:244-256 | the first loop builds the error map over the required fields and the list of the empty ones, in order |
| Driver.OptionalStep | src/pages/DriverDetails.jsx:259-265 | checking one more optional field adds its error only when the field is filled in and fails |
| Driver.AddOptionalErrors | src/pages/DriverDetails.jsx:258-266 | the second loop adds the error of every filled-in optional field that fails, completing the submit error map |
| Driver.CollectErrors | src/pages/DriverDetails.jsx:243-266 | the two loops build the error map over the required and optional fields, and the list of empty required fields in order |
| Driver.SubmitErrorsKeys | src/pages/DriverDetails.jsx:244-266 | the error map has an entry exactly for each failing required field and each filled-in optional field that fails |
| Driver.MissingAreBlankRequired | src/pages/DriverDetails.jsx:248-256 | the missing list holds exactly the blank required fields, and each of them has an error |
| Driver.SubmitDriver | src/pages/DriverDetails.jsx:243-300 | with errors: the error map and banner are returned and nothing is stored or progressed; without: the form is stored and driver_details is set to 100 |
| Driver.SavedFormHasValidEmail | src/pages/DriverDetails.jsx:243-293 | a saved form has an email the shared email rule accepts |
| Driver.SavedFormHasValidPhone | src/pages/DriverDetails.jsx:243-293 | a saved form has a phone number the shared phone rule accepts |
| Driver.SavedFormHasAllowedAge | src/pages/DriverDetails.jsx:243-293 | a saved form with a date of birth belongs to a driver aged 18 to 80 |
| Auth.RouteAfterSignIn | src/pages/Login.jsx:84-90 | the route is the driver details iff the pending flag is 'true' |
| Auth.Session.constructor | src/pages/Login.jsx:19 | a fresh session is signed out and holds the given pending flag |
| Auth.Session.CompleteSignIn | src/pages/Login.jsx:77-90 | the session is authenticated with the email; a pending 'true' is removed and routes to the driver details; any other flag is kept and routes to the vehicle details |
| Auth.SignInTwice | src/pages/Register.jsx:121-127 | a pending flag redirects once: the first sign-in is routed by the flag, and a second sign-in in a row always goes to the vehicle details |
| Login.ValidateLogin | src/pages/Login.jsx:35-50 | the login form check; stated by `Login.LoginAccepted` and `Login.MissingPasswordReportedFirst` |
| Login.LoginAccepted | src/pages/Login.jsx:35-50 | the form is valid iff email and password are non-empty and the email matches the pattern |
| Login.MissingPasswordReportedFirst | src/pages/Login.jsx:40-47 | an empty password with a malformed email is reported as a missing password |
| Login.AnyPasswordAccepted | src/pages/Login.jsx:40-49 | there is no strength rule: any two non-empty passwords get the same verdict |
| Login.SameEmailRuleAsForms | src/pages/Login.jsx:44-45 | with a password present, the login form accepts exactly the emails the other forms accept |
| Login.SubmitLogin | src/pages/Login.jsx:52-100 | an invalid form reports its error and writes no session; a valid one is authenticated with its email, routed by the pending flag, and removes the flag when it is 'true' and keeps it otherwise |
| Register.ValidatePassword | src/pages/Register.jsx:56-62 | the password rule; stated by `Register.PasswordAccepted` and `Register.ShortPasswordReportedAsShort` |
| Register.ValidateName | src/pages/Register.jsx:44-47 | the first-name and last-name rule; stated by `Register.NameRule` |
| Register.ValidateField | src/pages/Register.jsx:42-68 | `validateField` of the registration page; its cases are stated by `Register.NameRule`, `Register.PasswordAccepted` and `Register.ConfirmationRule` |
| Register.PasswordAccepted | src/pages/Register.jsx:56-62 | a password is valid iff it has at least 8 characters, a lowercase letter, an uppercase letter and a digit |
| Register.ShortPasswordReportedAsShort | src/pages/Register.jsx:57-58 | a non-empty password under 8 characters gets the length message whatever it contains |
| Register.ConfirmationRule | src/pages/Register.jsx:63-65 | the confirmation passes iff it is non-empty and equals the password |
| Register.NameRule | src/pages/Register.jsx:44-47 | first and last names pass iff they have at least two characters |
| Register.ValidateForm | src/pages/Register.jsx:71-85 | the loop builds the error map over all six fields, and the result is true iff that map is empty |
| Register.FormErrorsKeys | src/pages/Register.jsx:75-81 | the error map has an entry exactly for each failing field, holding its error |
| Register.FormValidIffAllFieldsPass | src/pages/Register.jsx:71-85 | the form is valid iff every field passes its rule |
| Register.ValidFormHasStrongPassword | src/pages/Register.jsx:56-85 | a valid form has a strong password repeated by the confirmation |
| Register.InputChange | src/pages/Register.jsx:23-40 | only the edited field changes, only its error is cleared, and the banner is hidden |
| Register.EditingPasswordKeepsConfirmationError | src/pages/Register.jsx:29-35 | editing the password leaves an existing confirmation error in place |
| Register.SubmitRegistration | src/pages/Register.jsx:87-136 | an invalid form returns its errors and writes no session; a valid one is authenticated with its email, routed by the pending flag, and removes the flag when it is 'true' and keeps it otherwise |

## Left out

- Rendering, styling, icons and every display-only lookup, such as makes, models, licence types and coverage descriptions and features.
- The progress bar's polling timer and `storage` event listener. These are browser event plumbing.
- Every `setTimeout`-delayed progress update. These read stale React state or call `getProgressPercentage`, which is not part of this model.
- The driver page's re-validation of the years of experience when the date of birth changes. That handler reads stale React state.
- `localStorage` and JSON.
  The stores are in-memory objects, and a saved record is a `Storage.Slot` holding the form value.
  The session keeps only the email from the `userSession` object. The id, name and timestamps come from the clock.
  Loading the email from the session into the driver form is not part of this model.
- The simulated request delays, as well as the `Date.now()` and `new Date()` values they store.
- IEEE-754 arithmetic. Premiums and the progress totals (`Progress.WeightedTotal`) are exact reals, so double-rounding differences at .5 boundaries are not captured.
- Coverage.Premium: the excess is held as an already-parsed `int`. The page applies `parseInt` to the raw text of the input field, so text that does not parse gives a `NaN` premium, and trailing text after the digits is ignored; neither is modelled.
- Coverage.SubmitCoverage: the saved excess is the parsed `int`, not the raw text the page saves.
- `validateRegistrationDate`, `validateLicenseIssueDate` and `validateLicenseExpiryDate` depend on the clock and on time zones.
  Only their "empty is valid" case is modelled. For a non-empty value, their verdict is a parameter.
- Vehicle.ValidateField: the registration-date verdict for a non-empty value is a parameter, not computed.
- Driver.ValidateField: the licence-date verdicts for non-empty values are parameters, not computed.
- Driver.ValidateDateOfBirth: the date of birth is held already parsed as a (year, month, day) triple with today as a parameter.
  Parsing of the date string and its time-zone shift are not modelled. An unparsable date, whose `NaN` age passes every check, is not modelled either.
- Driver.ValidateYearsOfExperience: a filled-in but invalid date of birth makes the bound `NaN` and accepts any value. This is not modelled, because the date of birth is held parsed.
- Unicode.
  - Whitespace is the ASCII part of `\s`.
  - `toUpperCase` changes ASCII letters only.
  - Lengths count characters, not UTF-16 code units.
- Text.ParseInt: `parseInt` is modelled on ASCII whitespace, with both the decimal and the `0x` forms. Values beyond double precision are not modelled.
- Coverage.SubmitCoverage: the qualified premium saved is the one computed from the inputs. The page saves its `premium` state, which the effect recomputes from the same inputs.
- Hiding the error banner and the success banner on timers, and the page navigation of the details pages.
- The quote summary page, route protection and the home page. These are PDF generation, random quote numbers, and storage and routing wrappers.
- The coverage catalog is a parameter of the premium functions, and the page passes its own catalog. Keeping the literal catalog out of the general proofs keeps them small. The page-specific facts are proved about the page's catalog.
