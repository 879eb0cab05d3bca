# Roster budget page and avatar colour: a verified model

The roster page of this fantasy auction tracker shows one card per team. Each card has the team's
**spend**: the sum of the prices agreed in its `userplayer` roster. It has the **balance**: the
settings' `total` minus spend. It has one numbered row per roster entry. That row shows the player
found by id, the agreed price, and a **bid error** mark when the agreed price is below the player's
list price. Placeholder rows follow, padding the list to the settings' `playercount`. A small
avatar component picks a background colour from a twelve-entry palette by the first character of
its text, and shows that character upper-cased.

The model has three modules:

- `Results` (`results.dfy`) holds `Option`, for JavaScript's `undefined`, and `Result`, for a value
  or the exception the page would throw instead.
- `Roster` (`roster.dfy`) holds the per-team figures from `src/App.tsx`. The unguarded failures of
  the code are modelled as faults, not assumed away. A roster id that matches no player gives
  `UnknownPlayer`: the code reads `player.price` of `undefined`. A padding length
  `playercount - selectedPlayerCount` that is negative, or 2^32 or more, gives
  `InvalidArrayLength`: `Array` rejects it. An empty settings collection gives `MissingSettings`. Lemmas state exactly when each happens.
- `Avatar` (`avatar.dfy`) holds `getRandomColor` and the initial from `src/avatar.tsx`.

Prices, totals and counts are mathematical integers. Strings are Dafny strings of Unicode scalar
values; `charCodeAt(0)` is modelled as the first UTF-16 code unit of the first character.

JavaScript truthiness is kept. An empty `userplayer` array is truthy, so a team with an empty
roster still gets a list of `playercount` placeholders. Only a team with no `userplayer` field
gets no list at all.

A roster longer than `playercount` does not get zero placeholders: `Array` of a negative length
throws (see `RenderTeam`, `OverfullRosterThrows`).

## Model

| member | source | states |
|---|---|---|
| `Roster.Reduce` | src/App.tsx:127-130 | The left-fold `reduce` of the prices from an accumulator equals the accumulator plus the reference sum of the prices |
| `Roster.Spend` | src/App.tsx:123-132 | Spend is 0 when the team has no roster, and otherwise the sum of every entry's agreed price, starting from 0 |
| `Roster.FindPlayer` | src/App.tsx:165-167 | The lookup finds nothing exactly when no player has the id; otherwise it returns the first player with that id |
| `Roster.FilledRows` | src/App.tsx:164-194 | The roster map succeeds exactly when every id is listed. Then row k has slot index+k+1, the found player's name, the agreed price, and the bid-error flag exactly when the agreed price is below the list price. Otherwise the fault names the first unlisted entry's id |
| `Roster.PlaceholderRows` | src/App.tsx:195-204 | `Array(n)` throws a RangeError exactly when n is negative or 2^32 or more. Otherwise there are n placeholder rows, numbered on from the filled count |
| `Roster.RenderTeam` | src/App.tsx:121-206 | A card renders exactly when the team has no roster, or every id is listed and `playercount` minus the roster length is a valid array length (0 to 2^32-1). Otherwise the fault is the first id that no player carries, or the invalid array length. A rendered card has the team name, spend equal to the price sum (0 without a roster), spend + balance == total with no clamp, and a row list exactly when the roster is present |
| `Roster.RowLayout` | src/App.tsx:162-204 | A rendered row list has exactly `playercount` rows, numbered 1..playercount without a gap. A row is filled exactly when its position is below the roster length, so there are `playercount - selectedPlayerCount` placeholders |
| `Roster.SelectedCountMatchesRows` | src/App.tsx:124-200 | `selectedPlayerCount` equals the number of filled rows the card draws, and the rest of the list, `playercount - selectedPlayerCount` rows, are placeholders |
| `Roster.FilledRowShows` | src/App.tsx:165-191 | Filled row k shows the first player whose id is the entry's id, slot k+1, the agreed price, and the bid-error flag exactly when the agreed price is strictly below that player's list price |
| `Roster.SpendMatchesRows` | src/App.tsx:126-181 | The Spend badge equals the sum of the prices written in the card's filled rows |
| `Roster.BoughtAboveListPrice` | src/App.tsx:121-204 | Worked card: total 100, playercount 3, one player bought at 30 listed at 25. Spend 30, balance 70, a success row, then placeholders 2 and 3 |
| `Roster.BoughtBelowListPrice` | src/App.tsx:121-204 | Worked card: one player bought at 10 listed at 20. Spend 10, balance 90, a bid-error row, then two placeholders |
| `Roster.OverfullRosterThrows` | src/App.tsx:195 | Two entries with playercount 1 makes the card throw `InvalidArrayLength(-1)` instead of drawing zero placeholders |
| `Roster.RenderTeams` | src/App.tsx:121-209 | The page renders exactly when every team card renders. Then it has one card per team, in collection order. Otherwise it throws the fault of the first team whose card fails |
| `Roster.RenderPage` | src/App.tsx:72-75 | An empty settings collection throws `MissingSettings`, whatever the teams. Otherwise the page renders exactly when every team's card renders with the first settings document, and then holds those cards in team order; a page fault with settings present is never `MissingSettings` |
| `Avatar.FirstCodeUnit` | src/avatar.tsx:21 | `charCodeAt(0)` is a UTF-16 code unit in [0, 65536). It is the character's code for a BMP character, and a high surrogate otherwise |
| `Avatar.ColorIndex` | src/avatar.tsx:21 | The index `charCodeAt(0) % colors.length` is always in [0, 12), so the palette access is in bounds |
| `Avatar.RandomColor` | src/avatar.tsx:19-23 | The colour is `#fff` exactly when the text is missing or empty; any other colour is a palette entry |
| `Avatar.PaletteDistinct` | src/avatar.tsx:4-17 | The twelve palette entries are pairwise different, and none of them is `#fff` |
| `Avatar.SameColor` | src/avatar.tsx:21-22 | Two non-empty strings get the same colour exactly when the code units of their first characters agree modulo 12. The rest of the string never matters |
| `Avatar.EveryColorUsed` | src/avatar.tsx:4-22 | Every palette entry is the colour of some one-character string |
| `Avatar.Initial` | src/avatar.tsx:42 | The initial is absent for absent text and empty for empty text. For text starting with an ASCII character it is one character, never a lower-case letter: a lower-case ASCII letter is shifted to its capital and any other ASCII character is kept |
| `Avatar.ColorFollowsTextNotInitial` | src/avatar.tsx:37-42 | "alice" and "Alice" show the same initial "A" but get different colours (palette entries 1 and 5), because the colour is picked from the text as given |

## Left out

- The Firebase setup and the three live `useCollection` subscriptions (src/App.tsx:33-57) are foreign library I/O. The collections enter the model as sequences of already-loaded documents.
- The loading and error gate (src/App.tsx:59-70) renders nothing while a collection loads or fails. It is UI control flow over library state and is not modelled. The `if (!settings)` guard at src/App.tsx:76 can never fire, because an object literal is always truthy.
- The add-player and edit-settings forms and their `addDoc` and `setDoc` writes (src/App.tsx:216-303) are remote writes whose failures are only logged. Their meaning belongs to the database.
- React and Mantine rendering, modal state, grid breakpoints, list keys and the `Avatar` component wrapper (src/avatar.tsx:29-45) are layout. Only the values they display are modelled.
- JavaScript numbers are floats, and `+` can concatenate when a price is stored as a string. Prices, totals and counts are modelled as mathematical integers. `Array` of a non-integer length, which also throws, is not modelled.
- Roster.PlaceholderRows: running out of memory while filling a valid but huge array is not modelled.
- Avatar.Initial: only ASCII letters are upper-cased. Full Unicode `toUpperCase` changes other letters (`é` to `É`) and may lengthen a string (`ß` to `SS`). The function keeps every non-ASCII character as it is, and its contract says nothing about the initial of a text that starts with one. For a character outside the Basic Multilingual Plane, `charAt(0)` yields a lone surrogate, which a Dafny string cannot hold.
