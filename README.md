# crypto-demo: the state machines behind the pages

The crypto-demo site is a single-page React application. Most of it is layout.
Its logic lives in a few small in-memory state machines inside the components
and the wallet context. This project models that logic in Dafny and proves what
each piece promises:

- **The skill quiz** (`SkillDemos`, `skill_demos.dfy`). The `Quiz` class holds
  the question index, the answers keyed by question id, the completion flag and
  the score, over the five fixed sample questions. Its methods are the handlers:
  choose an answer, Next / Complete Quiz, Previous, Try Again and Start Quiz.
  The scoring loop is the method `CountCorrectAnswers`, proved against the
  specification function `CountCorrect`. Lemmas about `CountCorrect` give the
  bounds, the perfect-score condition, and the rule that unanswered questions
  count as wrong. The score tier shown at the end is `ResultTier`.
- **The Web3 poll** (`LiveDApps`, `live_dapps.dfy`). The `Poll` class holds four
  options with vote counters, a running total, the selected option and the
  "has voted" flag. Its invariant is that the total equals the sum of the
  counters, and `Vote` preserves it. The per-option update of `vote` is the pure
  function `BumpVotes`.
- **The wallet session** (`WalletContext`, `wallet_context.dfy`). The
  `WalletSession` class has the six context fields. It handles
  accounts-changed, chain-changed, connect and disconnect. Everything the wallet
  extension answers is an input: the account list, the hexadecimal chain id, the
  provider and signer objects, and the thrown error. The connect error
  classifier and the requests `switchToSepolia` sends are pure functions.
- **Contract helpers** (`BlockchainUtils`, `blockchain_utils.dfy`). These are
  `formatAddress`, `validateContracts` and the null-signer guard of
  `getContracts`.
- **JavaScript built-ins** (`JsBuiltins`, `js_builtins.dfy`). These are the
  built-ins the logic depends on: `parseInt(s, 16)` as ECMAScript defines it
  (leading white space, sign, `0x` prefix, longest digit run, NaN), `slice` with
  negative indices, and `includes`. `EthersHandles` (`ethers_handles.dfy`) gives
  the ethers provider and signer objects an identity and nothing more, because
  the demo only stores them and tests whether they are present.

Objects whose fields the handlers update are classes. Their methods carry
`modifies` clauses and state the whole new state against the old one. Pure
expressions of the source are functions, and the properties are lemmas about
those functions.

## Model

| member | source | states |
|---|---|---|
| `SkillDemos.SampleQuestions` | src/pages/SkillDemosPage.jsx:13-69 | The quiz has five questions; the body is the literal question list. |
| `SkillDemos.SampleQuestionsWellFormed` | src/pages/SkillDemosPage.jsx:13-69 | The questions carry ids 1 to 5 in order, four options each, and correct answers 2, 1, 0, 1, 0, so each correct answer is a valid option index. |
| `SkillDemos.Quiz.constructor` | src/pages/SkillDemosPage.jsx:7-10 | Initial state: index 0, no answers, not completed, score 0. |
| `SkillDemos.Quiz.AnswerSelect` | src/pages/SkillDemosPage.jsx:71-76 | The answer for `questionId` becomes `answerIndex`. Every other question keeps its answer or its absence of one. Index, completion and score are unchanged. |
| `SkillDemos.Quiz.Next` | src/pages/SkillDemosPage.jsx:78-93 | Before the last question, the index goes up by exactly one and score and completion are unchanged. On the last question, the index stays, completion becomes true and the score is the number of correctly answered positions. Answers are never touched. The index stays within the questions. |
| `SkillDemos.Quiz.Previous` | src/pages/SkillDemosPage.jsx:95-99 | The index goes down by one above 0 and stays at 0 otherwise. Nothing else changes. |
| `SkillDemos.Quiz.Reset` | src/pages/SkillDemosPage.jsx:101-106 | "Try Again" restores the initial state exactly. |
| `SkillDemos.Quiz.StartQuiz` | src/pages/SkillDemosPage.jsx:139 | "Start Quiz" sets the index to 0 and leaves answers, completion and score as they were. |
| `SkillDemos.Quiz.PreviousEnabled` | src/pages/SkillDemosPage.jsx:233 | "Previous" is enabled exactly when stepping back would move, that is, when the index is above 0. |
| `SkillDemos.Quiz.NextEnabled` | src/pages/SkillDemosPage.jsx:242 | "Next / Complete" is enabled exactly when the current question has an answer. |
| `SkillDemos.CountCorrectAnswers` | src/pages/SkillDemosPage.jsx:83-88 | The scoring loop returns the number of positions whose question has the correct answer chosen. That count is at most the number of questions. |
| `SkillDemos.CountCorrectIsCardinality` | src/pages/SkillDemosPage.jsx:83-88 | The front-to-back count equals the size of the set of correctly answered positions. |
| `SkillDemos.CountCorrectBounded` | src/pages/SkillDemosPage.jsx:83-90 | 0 <= score <= number of questions. |
| `SkillDemos.PerfectScoreIff` | src/pages/SkillDemosPage.jsx:83-90 | The score equals the number of questions if and only if every question is answered correctly. |
| `SkillDemos.UnansweredCountAsWrong` | src/pages/SkillDemosPage.jsx:85 | The score never exceeds the number of answered questions, so an unanswered question never scores. |
| `SkillDemos.NoAnswersScoreZero` | src/pages/SkillDemosPage.jsx:83-88 | Scoring with no answers gives 0. |
| `SkillDemos.ResultTierMonotone` | src/pages/SkillDemosPage.jsx:178-193 | For scores in range, a higher score never shows a lower tier (keep learning < good < perfect). |
| `SkillDemos.PerfectTierIffAllCorrect` | src/pages/SkillDemosPage.jsx:178-182 | A completed quiz shows "Perfect score" if and only if every question was answered correctly. |
| `SkillDemos.SampleTiers` | src/pages/SkillDemosPage.jsx:178-193 | With five questions, the tier is perfect iff the score is 5, good iff it is 2, 3 or 4 (floor of 5/2 is 2), and keep learning iff it is 0 or 1. |
| `SkillDemos.ResultTier` | src/pages/SkillDemosPage.jsx:178-193 | The message under the score: perfect exactly for a full score; keep learning exactly when the score is not full and below half the questions rounded down (2 * score + 1 < total); good otherwise. |
| `SkillDemos.Quiz.ShownTier` | src/pages/SkillDemosPage.jsx:178-193 | The quiz shows the perfect message exactly when its score equals the number of questions. |
| `SkillDemos.PerfectRun` | src/pages/SkillDemosPage.jsx:71-93 | Choosing the correct answer for each question and pressing Next each time completes the quiz with score 5 and the perfect tier. |
| `LiveDApps.InitialOptions` | src/pages/LiveDAppsPage.jsx:9-17 | The poll has four options with ids 1 to 4 and counts 45, 28, 19 and 34, in that order. |
| `LiveDApps.InitialTotalIsSum` | src/pages/LiveDAppsPage.jsx:9-17 | The initial counts sum to the initial total of 126, and the option ids are distinct. |
| `LiveDApps.BumpVotes` | src/pages/LiveDAppsPage.jsx:23-28 | Same length, same ids and texts in the same order. An option's count goes up by one iff its id is the selected one. |
| `LiveDApps.SumVotesAfterBump` | src/pages/LiveDAppsPage.jsx:23-33 | The sum of counts after the update is the old sum plus the number of options with the selected id. |
| `LiveDApps.CountIdOfDistinct` | src/pages/LiveDAppsPage.jsx:23-28 | With distinct ids, a selected id that exists matches exactly one option, and an absent id matches none. |
| `LiveDApps.BumpUnknownIdIsIdentity` | src/pages/LiveDAppsPage.jsx:23-28 | Selecting an id that no option has leaves every counter unchanged. |
| `LiveDApps.Poll.constructor` | src/pages/LiveDAppsPage.jsx:7-17 | Initial state: the four options, total 126, nothing selected, not voted. The invariant holds. |
| `LiveDApps.Poll.SelectOption` | src/pages/LiveDAppsPage.jsx:128 | Clicking a shown option selects its id. Counts, total and the voted flag are unchanged. |
| `LiveDApps.Poll.Vote` | src/pages/LiveDAppsPage.jsx:20-38 | With nothing selected, nothing changes. Otherwise the selected option gains exactly one vote, the total gains one, the voted flag is set and the selection is cleared. Ids and order are kept, and total = sum of counters is preserved. |
| `LiveDApps.Poll.VoteAgain` | src/pages/LiveDAppsPage.jsx:111 | "Vote Again" clears the voted flag and leaves counts, total and selection alone. |
| `LiveDApps.Poll.SubmitEnabled` | src/pages/LiveDAppsPage.jsx:137 | "Submit Vote" is enabled exactly when one of the poll's option ids is selected. |
| `LiveDApps.VoteFor` | src/pages/LiveDAppsPage.jsx:120-141 | Clicking the option at position k and submitting adds one vote to that option alone and one to the total. |
| `WalletContext.WalletSession.constructor` | src/contexts/WalletContext.jsx:9-14 | Initial state: not connected, empty address, no provider, no signer, no chain id, not connecting. |
| `WalletContext.WalletSession.HandleAccountsChanged` | src/contexts/WalletContext.jsx:22-32 | An empty list clears the connection, the address and the signer, and keeps the provider and chain id. A non-empty list sets the address to its first account and changes nothing else. |
| `WalletContext.WalletSession.HandleChainChanged` | src/contexts/WalletContext.jsx:35-36 | The chain id becomes `parseInt(hex, 16)`. The session is on Sepolia iff that value is 11155111. Nothing else changes. |
| `WalletContext.WalletSession.ConnectWallet` | src/contexts/WalletContext.jsx:57-112 | Without MetaMask, nothing changes. On failure, the connection fields are unchanged, `connecting` ends false and the alert is the classified one. On success, the session is connected with `accounts[0]`, the provider, the signer and the parsed chain id, `connecting` ends false, and a switch is offered iff the chain is not Sepolia. |
| `WalletContext.WalletSession.DisconnectWallet` | src/contexts/WalletContext.jsx:116-121 | Clears the connection, address, provider and signer, and keeps the chain id. |
| `WalletContext.WalletSession.IsSepoliaNetwork` | src/contexts/WalletContext.jsx:124 | True exactly when the session's chain id is the value the switch request's "0xaa36a7" parses to. |
| `WalletContext.ClassifyConnectErrorCases` | src/contexts/WalletContext.jsx:100-108 | Code 4001 gives "rejected". Code -32002 gives "pending". Otherwise, a message containing "Already processing eth_requestAccounts" at some position gives "in progress". Everything else gives "failed", with the message or "Unknown error". |
| `WalletContext.ClassifyConnectError` | src/contexts/WalletContext.jsx:100-108 | The alert for a failed connect. Code 4001 always gives "rejected", and a "failed" alert always carries a non-empty detail (the message, or "Unknown error"). |
| `WalletContext.SepoliaHexIsSepoliaId` | src/contexts/WalletContext.jsx:124-133 | The requested chain id "0xaa36a7" parses to 11155111, the id `isSepoliaNetwork` tests for. |
| `WalletContext.SwitchToSepoliaRequests` | src/contexts/WalletContext.jsx:127-162 | With no wallet, no request is sent. Otherwise the first request is a switch to "0xaa36a7", and at most two requests are sent. |
| `WalletContext.SwitchToSepoliaTargetsSepolia` | src/contexts/WalletContext.jsx:131-160 | Every request names "0xaa36a7". An add-chain request is sent iff there is a wallet and the switch failed with code 4902. |
| `WalletContext.SepoliaParameters` | src/contexts/WalletContext.jsx:142-152 | The add-chain description names the chain whose hexadecimal id parses to 11155111, lists at least one RPC URL and gives the currency 18 decimals. |
| `WalletContext.ReportSepoliaChain` | src/contexts/WalletContext.jsx:124-134 | When a connected session's wallet reports the chain a switch asked for, the handler's state update puts the session on the Sepolia network. That state lasts only until the page reload at line 39 restores the initial state. |
| `JsBuiltins.ParseIntHexOfToHex` | src/contexts/WalletContext.jsx:85-88 | `parseInt("0x" + hex(n) + rest, 16) == n` for every n >= 0, when `rest` does not continue the digits. |
| `JsBuiltins.ParseIntHex` | src/contexts/WalletContext.jsx:36 | `parseInt(s, 16)` as ECMAScript defines it (the calls at lines 36, 85 and 88). Text that is empty after its leading white space gives NaN, and a negative result needs a leading minus sign. |
| `JsBuiltins.ParseIntHexSkipsWhiteSpace` | src/contexts/WalletContext.jsx:36 | Leading white space does not change what `parseInt` reads. |
| `JsBuiltins.ParseIntHexNegative` | src/contexts/WalletContext.jsx:36 | In front of text that starts with neither white space nor a sign, a minus sign negates the parsed value, and NaN stays NaN. |
| `JsBuiltins.IncludesIffOccurs` | src/contexts/WalletContext.jsx:104 | `includes` is true exactly when the needle occurs at some position. |
| `JsBuiltins.Includes` | src/contexts/WalletContext.jsx:104 | `s.includes(sub)`: never true for a needle longer than `s`, and always true for the empty needle. |
| `JsBuiltins.SliceHead` | src/utils/blockchainUtils.js:211 | `s.slice(0, n)` is the first min(n, len) characters. |
| `JsBuiltins.SliceTail` | src/utils/blockchainUtils.js:211 | For n > 0, `s.slice(-n)` is the last min(n, len) characters. |
| `JsBuiltins.Slice` | src/utils/blockchainUtils.js:211 | `s.slice(start, end)` is a contiguous piece of `s`, no longer than `s`, starting at the start index resolved as `slice` resolves it. |
| `BlockchainUtils.FormatAddress` | src/utils/blockchainUtils.js:209-212 | The result is empty exactly when the address is missing or empty. |
| `BlockchainUtils.FormatAddressShape` | src/utils/blockchainUtils.js:211 | For a non-empty address, the result is its first min(6, n) characters, then "...", then its last min(4, n) characters. |
| `BlockchainUtils.FormatAddressLength` | src/utils/blockchainUtils.js:211 | The length is min(6, n) + 3 + min(4, n), which is 13 for any address of 6 characters or more. |
| `BlockchainUtils.FormatAddressKeepsEnds` | src/utils/blockchainUtils.js:211 | For addresses of 10 characters or more, only the middle is hidden. Head and tail of the display around the hidden middle rebuild the address. |
| `BlockchainUtils.EnvAddress` | src/utils/blockchainUtils.js:9-11 | An unset or empty environment variable gives the empty address, and any other value is used as it is. |
| `BlockchainUtils.GetContracts` | src/utils/blockchainUtils.js:9-49 | Null exactly when there is no signer or a contract constructor throws. Otherwise there are three contracts, each at the address `EnvAddress` gives for its environment variable and each bound to the signer. |
| `BlockchainUtils.GetContractsValidates` | src/utils/blockchainUtils.js:219-229 | `validateContracts` accepts what `getContracts` returns iff it is not null. `validateContracts` of null is false. |
| `BlockchainUtils.ValidateContracts` | src/utils/blockchainUtils.js:219-229 | True exactly when the object is present and each of its three entries is present and has a runner. |

## Left out

- Rendering, styling and layout of every page and component. The static pages (about, CV NFT, achievements, home), the showcase card, the layout and the routes have no logic.
- The header's address truncation (src/components/layout/Header.jsx:29 and src/components/layout/Header.jsx:86). `substring` clamps a negative start to 0 just as `slice(-4)` does, and `substring(0, 6)` equals `slice(0, 6)`, so with the `walletAddress &&` guard it gives the same string as `formatAddress` for every address, the empty one included.
- Poll percentages. They are `Math.round` of a floating-point division.
- The buzzword-bingo board and the roadmap steps. They are static content with disabled buttons.
- All `window.ethereum` requests, registering and removing listeners, `window.location.reload`, `alert`, `confirm`, `window.open`, and ethers `BrowserProvider` and `getSigner`. They are asynchronous browser and library calls. Their results are method inputs instead.
- `mintPortfolioNFT`, `createJobRoadmap`, `addTaskToRoadmap` and `createChallenge`. They are asynchronous contract calls, and they read logs through ABIs that are not part of this model.
- `uploadMetadataToIPFS`. It builds a placeholder from the clock and a random number.
- The deployment script and the build configuration files.
- Overlapping asynchronous connect attempts. The model runs each handler to completion, so `connecting` is only observed at rest, where it is false.
- WalletContext.WalletSession.ConnectWallet: a granted connection is required to carry at least one account. A wallet following EIP-1102 rejects instead of granting an empty list. With an empty list the source would store `undefined` as the address, which the model's string field cannot hold.
- WalletContext.WalletSession.HandleAccountsChanged: it requires a connected session, because the listener is only registered while connected (src/contexts/WalletContext.jsx:43-54).
- WalletContext.WalletSession.HandleChainChanged: it requires a connected session, like HandleAccountsChanged, because the listener is only registered while connected. Only the state update is modelled. The page reload that follows it discards all state.
- JsBuiltins.ParseIntHex: the value is an exact integer. JavaScript rounds results above 2^53 to a double and reads "-0" as negative zero. Chain ids are far below that bound.
- Strings are sequences of Dafny characters. JavaScript slices UTF-16 code units, which differ only for characters outside the Basic Multilingual Plane.
- BlockchainUtils.ValidateContracts: JavaScript returns the last operand of the `&&` chain (the runner object or a falsy value), not a boolean. The model keeps only its truthiness, as its JSDoc `@returns {boolean}` (src/utils/blockchainUtils.js:217) documents; no caller in the source uses the value.
- A provider error whose `code` is not a number is modelled as having no code. An error whose `message` is missing is modelled as having the empty message. Both behave the same in the conditions at src/contexts/WalletContext.jsx:100-107.
