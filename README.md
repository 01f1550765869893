# ePasal storefront rules in Dafny

This project models the client-side logic of the ePasal React storefront and
its admin pages. Almost all of that code is markup and HTTP. The model keeps
the rules that decide what the pages do, each as a Dafny function, predicate
or class:

- the sign-up and login form checks, and the route chosen after a login;
- the inventory search ranking (keyword count, positive filter, stable
  descending sort) and the cost-price draft editing;
- the one-time-password entry buffer of five slots;
- the admin support chat (snapshot polling, sending, bot toggle);
- the customer conversation page (user id, polling, sending);
- the payment-result page, the brand page lookup, the navigation-bar menu
  toggle and the choice of two different advertisement images;
- the IPv4 check of the backend-address setup script.

Server replies, random draws and clock readings are inputs of the methods and
functions that use them. Strings are `seq<char>` over ASCII: whitespace is the
ASCII part of JavaScript's `\s`, and lower-casing maps only `A`-`Z`.

Files:

- `optional.dfy`: `Option` and string truthiness.
- `display.dfy`: notices and chat bubbles.
- `text.dfy`: `trim`, `toLowerCase`, `includes`, `endsWith`, and splitting on
  whitespace.
- `signup_form.dfy`, `login.dfy`: the form checks.
- `inventory_search.dfy`, `inventory_editing.dfy`: the inventory page.
- `otp.dfy`, `customers.dfy`, `conversation.dfy`: the stateful pages, as
  classes.
- `payment.dfy`, `brand.dfy`, `navbar.dfy`, `ads.dfy`, `set_ip.dfy`: the small
  mappings.

Both sign-up pages (`src/pages/auth/signupPage.tsx` and
`src/pages/signup.tsx`) define the same five checks, the same disabling rule
and the same payload. They are modelled once, in `SignupForm`.

## Model

| member | source | states |
|---|---|---|
| Text.Trim | src/pages/auth/signupPage.tsx:28 | the trimmed string is a contiguous slice of the input with only whitespace before and after it; it is no longer than the input, empty exactly when the input is all whitespace, and otherwise starts and ends with a non-space character |
| Text.IsEmpty | src/pages/auth/signupPage.tsx:28 | `isEmpty(s)` holds exactly when every character of `s` is whitespace |
| Text.TrimUnpadded | src/admin/customers.tsx:159 | a string that neither starts nor ends with whitespace is unchanged by trimming |
| Text.ToLower | src/admin/inventory.tsx:43-46 | lower-casing keeps the length, maps each character through the ASCII rule, and leaves no upper-case letter |
| Text.LowerBlank | src/admin/inventory.tsx:41-43 | lower-casing neither creates nor removes whitespace, so a search is blank before lower-casing exactly when it is blank after |
| Text.Contains | src/admin/inventory.tsx:49 | a string that `includes` a keyword is at least as long as it, and every string includes the empty keyword |
| Text.OccursShift | src/admin/inventory.tsx:49 | an occurrence past the first character is an occurrence in the tail, one position earlier |
| Text.ContainsIff | src/admin/inventory.tsx:49 | `includes` holds exactly when the keyword occurs at some offset of the name, in both directions |
| Text.EndsWith | src/pages/auth/signupPage.tsx:29 | `endsWith` holds exactly when the suffix fits and each of its characters equals the character at the same distance from the end |
| Text.Words | src/admin/inventory.tsx:43 | every piece from `split(/\s+/).filter(Boolean)` is non-empty and holds no whitespace, and there are none exactly when the string is all whitespace |
| Text.WordsSkipBlank | src/admin/inventory.tsx:43 | leading whitespace does not change the pieces |
| Text.WordOfWord | src/admin/inventory.tsx:43 | a run of non-space characters splits into itself alone |
| Text.WordsAtSpace | src/admin/inventory.tsx:43 | the pieces of `a + c + b`, for a whitespace character `c`, are the pieces of `a` followed by the pieces of `b`, so only whitespace separates pieces |
| SignupForm.IsEmailValid | src/pages/auth/signupPage.tsx:29 | an email that passes the gmail check is at least as long as "@gmail.com" after trimming, and is never blank, so never empty in the form's sense |
| SignupForm.IsPhoneValid | src/pages/auth/signupPage.tsx:30 | a number passes exactly when it has ten characters, each an ASCII digit; nothing is trimmed, so a number holding whitespace is rejected |
| SignupForm.LookaheadIsHas | src/pages/auth/signupPage.tsx:32 | on a string without line terminators, a `(?=.*C)` lookahead at the start holds exactly when some character is in class C |
| SignupForm.IsPasswordStrong | src/pages/auth/signupPage.tsx:31-32 | a password is strong exactly when it has at least 8 characters, no line terminator, and a lower-case letter, an upper-case letter, a digit and a character that is neither a word character nor whitespace |
| SignupForm.UnderscoreIsNotASymbol | src/pages/signup.tsx:31-32 | "Abcdef1_" is not strong because `_` is a word character, while "Abcdef1!" is strong |
| SignupForm.IsDisabled | src/pages/auth/signupPage.tsx:35-40 | submit is enabled exactly when all of these hold: the name has a non-space character; the number is ten ASCII digits, untrimmed; the trimmed email ends with the case-sensitive "@gmail.com"; the password is strong; the password equals its confirmation |
| SignupForm.PayloadAsTyped | src/pages/signup.tsx:57 | the payload holds name, number, email and password exactly as typed, and the confirmation has no effect on it |
| LoginForm.IsDisabled | src/pages/auth/login.tsx:26-27 | login is enabled exactly when both the gmail and the password hold a non-space character |
| LoginForm.SendLoginData | src/pages/auth/login.tsx:42-116 | the payload is `{gmail, password}` untrimmed. A rejected login shows "Login failed: " and the body text; a thrown `Error` shows "Login failed: " and its message, any other thrown value "Error while logging in: " and its text; none of these navigates. An accepted login first shows "Login successful!". The page then navigates exactly when the user-info request succeeds: to "/adminhomepage" for status "admin", otherwise to "/". A rejected user-info request adds "Failed to retrieve user info: " and its text; a thrown one adds nothing. On the path that navigates, before navigating, a rejected storage request adds "Failed to fetch user info: " and its text, and a thrown one "Error fetching user data: " and its description |
| AdPicker.ChosenIndices | src/multishareCodes/ads.tsx:8-14 | with fewer than two images both indices are 0; otherwise the first index is the first draw, both are in range, and they differ |
| AdPicker.TwoRandomImages | src/multishareCodes/ads.tsx:8-14 | no image gives two `undefined`; one image is shown twice; otherwise the first draw's image and an image at a different index |
| AdPicker.SkipOverInjective | src/multishareCodes/ads.tsx:11-12 | different second draws give different second indices |
| AdPicker.SkipOverOnto | src/multishareCodes/ads.tsx:11-12 | the second index ranges over exactly the indices in [0, n) other than the first, so every other image can be chosen |
| PaymentStatus.Get | src/pages/paymentPage.tsx:13-15 | the value of the first parameter with that name; none exactly when no parameter has that name |
| PaymentStatus.MessageFor | src/pages/paymentPage.tsx:20-26 | "Completed" gives "Payment Successful", "User cancelled" gives "Payment Failed", any other or missing status gives "Unknown Payment Status"; the message is never "Processing payment..." |
| PaymentStatus.OnQuery | src/pages/paymentPage.tsx:12-27 | the stored status is the raw `status` parameter; the message follows from that status alone as above and is no longer the initial "Processing payment..."; there is no id exactly when `txnId` is missing or empty and `transaction_id` is missing |
| PaymentStatus.TxnId | src/pages/paymentPage.tsx:15 | the id is `txnId` when present and non-empty, otherwise `transaction_id`; it is missing exactly when `txnId` is missing or empty and `transaction_id` is missing |
| PaymentStatus.CompletedWithTransactionId | src/pages/paymentPage.tsx:10-40 | a completed payment whose `txnId` is empty shows its `transaction_id` and the transaction line; the initial state shows no transaction line |
| BrandPage.CaseInsensitive | src/pages/brandPage.tsx:27 | names that lower-case alike resolve alike |
| BrandPage.Resolve | src/pages/brandPage.tsx:19-28 | a brand page is shown exactly when the lower-cased parameter is acer, asus, lenovo or msi, under that entry's page name; a missing parameter or any other name redirects to "/" |
| BrandPage.PageNames | src/pages/brandPage.tsx:20-23 | "lenovo" in any case is shown as page "lenevo", the other three brands under their own lower-cased names |
| BrandPage.MixedCase | src/pages/brandPage.tsx:19-28 | "LeNoVo" shows page "lenevo" and "dell" redirects |
| Navigation.Toggle | src/multishareCodes/navbar.tsx:11 | toggling closes the menu exactly when it is the open one; otherwise the toggled menu, and only it, is open |
| Navigation.Navbar.constructor | src/multishareCodes/navbar.tsx:9 | no menu is open initially |
| Navigation.Navbar.ToggleMenu | src/multishareCodes/navbar.tsx:10-12 | the new open menu is `Toggle(old, menu)` |
| Navigation.ToggleCases | src/multishareCodes/navbar.tsx:11 | after a toggle no menu other than the toggled one is highlighted |
| Navigation.AtMostOneHighlighted | src/multishareCodes/navbar.tsx:27-34 | two highlighted menus are the same menu |
| SetIp.IsOctetField | scripts/set-ip.js:11 | an accepted field has one to three digits, and a three-digit field starting with 0 is rejected |
| SetIp.ShortValue | scripts/set-ip.js:11 | the decimal value of a field of one to three digits, written out digit by digit |
| SetIp.OctetFieldIff | scripts/set-ip.js:11 | a field is accepted exactly when it has one to three digits, its value is at most 255, and it is not a three-digit field that starts with 0 |
| SetIp.OctetFieldVersusDecOctet | scripts/set-ip.js:11 | a field is accepted exactly when it is an RFC 3986 `dec-octet` or a two-digit field with a leading 0 |
| SetIp.LeadingZeros | scripts/set-ip.js:11 | "0", "01" and "255" are accepted; "001", "012", "256" and "" are rejected; "01" is not a `dec-octet` |
| SetIp.SplitJoin | scripts/set-ip.js:11 | splitting fields that hold no separator after joining them gives the fields back |
| SetIp.JoinSplit | scripts/set-ip.js:11 | joining the split parts gives the string back |
| SetIp.AcceptedIffDottedQuad | scripts/set-ip.js:11 | an address is accepted exactly when it is four accepted fields joined by single dots, with nothing before or after |
| SetIp.IsIpv4 | scripts/set-ip.js:11 | an accepted address holds only digits and dots, neither starts nor ends with a dot, and never has two dots in a row |
| SetIp.Rejections | scripts/set-ip.js:11 | a trailing dot, a leading dot, an empty field and a trailing letter are each rejected |
| SetIp.Examples | scripts/set-ip.js:13 | the prompt's example address 192.168.1.100 is accepted |
| SetIp.OnAnswer | scripts/set-ip.js:14-18 | the script stops, with no ping and no file write, exactly when the address is rejected; otherwise it pings the address as typed |
| InventorySearch.Keywords | src/admin/inventory.tsx:43 | the keywords are non-empty runs without whitespace, and there is at least one exactly when the search is not blank |
| InventorySearch.Score | src/admin/inventory.tsx:47-50 | the score never exceeds the number of keywords |
| InventorySearch.ScoreCountsHits | src/admin/inventory.tsx:47-50 | an item's score is the number of keywords (duplicates counted) that occur in its lower-cased name; it is at most the number of keywords and is positive exactly when some keyword occurs |
| InventorySearch.MatchCount | src/admin/inventory.tsx:46-51 | the counting loop returns that score |
| InventorySearch.PositiveMembers | src/admin/inventory.tsx:55 | the filter keeps exactly the entries with a positive score and is no longer than its input |
| InventorySearch.PositiveIncreasing | src/admin/inventory.tsx:55 | the filter keeps inventory order |
| InventorySearch.Insert | src/admin/inventory.tsx:56 | inserting an entry adds exactly that entry and nothing else |
| InventorySearch.InsertOrdered | src/admin/inventory.tsx:56 | inserting an entry that comes earlier in inventory order than every present entry keeps the list ordered by descending score, ties in inventory order |
| InventorySearch.SortDesc | src/admin/inventory.tsx:56 | the sort is a permutation of its input, of the same length |
| InventorySearch.SortDescSpec | src/admin/inventory.tsx:56 | on entries in inventory order, the sort orders by descending score with equal scores in inventory order, as a stable sort does |
| InventorySearch.SortDescPermutes | src/admin/inventory.tsx:56 | the sorted list has its input's length and members and is ordered |
| InventorySearch.ScoreAllMembers | src/admin/inventory.tsx:44-52 | a scored entry is exactly an inventory item at its position with that item's score |
| InventorySearch.OrderedDistinct | src/admin/inventory.tsx:56 | an ordered list of entries determined by their position holds each position once |
| InventorySearch.Ranked | src/admin/inventory.tsx:44-56 | the scored, filtered and sorted entries are no more than the inventory, all score above zero, and are in descending score with equal scores in inventory order |
| InventorySearch.RankedSpec | src/admin/inventory.tsx:44-56 | the ranked entries are exactly the inventory items scoring above zero, each with its position and score, and no position occurs twice |
| InventorySearch.FilteredInventory | src/admin/inventory.tsx:40-58 | a blank search shows the whole inventory in its own order; any search shows only inventory items and never more items than the inventory holds |
| InventoryEditing.IsDecimalDraft | src/admin/inventory.tsx:65 | in an accepted draft the characters on either side of a dot are digits, and a draft without a dot is all digits |
| InventoryEditing.DecimalDraftIff | src/admin/inventory.tsx:65 | a draft passes `/^\d*\.?\d*$/` exactly when it is digits, an optional single dot, and digits |
| InventoryEditing.ShapeIsDecimal | src/admin/inventory.tsx:65 | every string of the regular expression's shape is accepted |
| InventoryEditing.DraftExamples | src/admin/inventory.tsx:65 | "", ".", "12.50" and ".5" are accepted; "1.2.3", "-1" and "1e5" are refused |
| InventoryEditing.WithCostPrice | src/admin/inventory.tsx:93-97 | the by-id update keeps the length of the list |
| InventoryEditing.WithCostPriceSpec | src/admin/inventory.tsx:93-97 | items with another id are unchanged, and an item with that id changes only its cost price |
| InventoryEditing.WithCostPriceUnknownId | src/admin/inventory.tsx:93-97 | an id no item has leaves the list unchanged |
| InventoryEditing.InventoryPage.StartEditing | src/admin/inventory.tsx:60-62 | only that id's draft is set, to the price's text |
| InventoryEditing.InventoryPage.OnCostPriceChange | src/admin/inventory.tsx:64-68 | the draft is replaced only by a decimal draft; otherwise nothing changes |
| InventoryEditing.InventoryPage.CancelEditing | src/admin/inventory.tsx:110-116 | only that id's draft is removed |
| InventoryEditing.InventoryPage.SaveCostPrice | src/admin/inventory.tsx:70-108 | a missing or empty draft sends nothing and shows nothing; an invalid draft sends nothing and reports "Invalid cost price entered". Otherwise the draft is sent. Only an ok reply updates that item's cost price, removes its draft and reports "Cost price updated successfully"; a failed reply changes nothing and reports "Error updating cost price: " followed by the server's message (or "Failed to update cost price" when it has none) or by the thrown error's text |
| OtpEntry.JoinedDigits | src/pages/auth/otp.tsx:69-70 | filled one-digit slots join to a digit string with one character per slot, slot by slot |
| OtpEntry.MatchNeedsFiveDigits | src/pages/auth/otp.tsx:69-71 | a complete entry can only match an expected code of exactly five digits |
| OtpEntry.JoinedInjective | src/pages/auth/otp.tsx:70-71 | two complete entries that join to the same code hold the same digits |
| OtpEntry.OtpForm.constructor | src/pages/auth/otp.tsx:10-30 | five empty slots, no verdict yet, and authorized exactly when both `temp_id` and `otp` are non-empty; when not authorized the notice is "Unauthorized access. Redirecting to signup.", and when authorized slot 0 takes the focus |
| OtpEntry.OtpForm.HandleChange | src/pages/auth/otp.tsx:58-81 | when unauthorized, or given a value that is neither empty nor one digit, nothing changes. Otherwise only that slot is written. The focus moves on only after a digit and not from the last slot. Once all slots are filled the verdict is whether the code matches; verification is asked for exactly on a match, and the notice "OTP does not match. Try again." is shown exactly on a mismatch. While a slot is empty the verdict is unchanged and nothing is verified |
| OtpEntry.OtpForm.Backspace | src/pages/auth/otp.tsx:103-117 | a non-empty slot is cleared; on an empty slot the previous one is cleared and focused; on the empty first slot nothing changes |
| CustomerSupport.BubbleFor | src/admin/customers.tsx:134-148 | user messages are on the left with no label; all others are on the right, labelled "Admin" exactly for the admin and "Bot" otherwise |
| CustomerSupport.SupportChat.constructor | src/admin/customers.tsx:17-20 | no user, no messages, unknown bot flag |
| CustomerSupport.SupportChat.ToggleShown | src/admin/customers.tsx:98 | while nothing is fetched without a selected user, the bot toggle is shown exactly when the bot flag is known |
| CustomerSupport.SupportChat.ApplySnapshot | src/admin/customers.tsx:47-58 | a decoded snapshot replaces the list wholesale (an absent list is empty) and sets the flag (absent is false); a failed one empties the list and makes the flag unknown |
| CustomerSupport.SupportChat.SelectUser | src/admin/customers.tsx:29-42 | the clicked user becomes selected and the reply to its fetch is applied as a snapshot |
| CustomerSupport.SupportChat.Poll | src/admin/customers.tsx:44-67 | with no user selected nothing changes; otherwise the reply is applied as a snapshot |
| CustomerSupport.SupportChat.SetInput | src/admin/customers.tsx:193-198 | typing sets the field's text and changes nothing else |
| CustomerSupport.SupportChat.SendMessage | src/admin/customers.tsx:155-189 | blank input or no selected user sends nothing and changes nothing. Otherwise the trimmed text is sent to the selected user with the given timestamp. On success exactly that admin message is appended and the field is cleared; on failure nothing changes and "Failed to send message" is alerted |
| CustomerSupport.SupportChat.ToggleBot | src/admin/customers.tsx:105-123 | without a selected user nothing is requested, nothing changes and no alert is raised. With one it requests the negation of the flag (true when the flag is unknown) and commits it only on an ok reply; a failed reply keeps the flag and alerts "Failed to update bot status" |
| Conversation.ResolveUserId | src/pages/conversation.tsx:25 | the navigation-state id when it is non-empty, otherwise the session id |
| Conversation.PollingStartsIff | src/pages/conversation.tsx:25-32 | polling starts exactly when either the state or the session holds a non-empty id, which is then the id used |
| Conversation.BubbleFor | src/pages/conversation.tsx:127-147 | the customer's own messages are right-aligned with no label; all others are left-aligned, labelled as the admin's exactly for the admin and as the bot's otherwise |
| Conversation.ConversationView.constructor | src/pages/conversation.tsx:25-28 | the id is resolved from state and session; no messages and an empty field |
| Conversation.ConversationView.Poll | src/pages/conversation.tsx:31-46 | with an id, a decoded reply replaces the list; a failure, or no id, leaves it unchanged |
| Conversation.ConversationView.SetInput | src/pages/conversation.tsx:160 | typing sets the field's text and leaves the messages as they were |
| Conversation.ConversationView.SendMessage | src/pages/conversation.tsx:56-84 | blank input sends nothing. Otherwise the untrimmed input is sent as a "user" message. A confirmed send appends exactly the returned message and clears the field. A refusal alerts and changes nothing; a thrown error changes nothing |

## Left out

- HTTP, JSON decoding, `sessionStorage`, router navigation, toasts, alerts and
  notifications are not performed. Each server reply is an input, and a notice
  or an alert is a returned value. What happens when a toast closes is not
  modelled; in particular the redirect to "/signup" after the unauthorized
  OTP notice is left out.
- `console.error` logging (src/admin/customers.tsx:38, 55, 121, 187 and
  src/pages/conversation.tsx:38, 82) has no visible effect and is left out.
- OtpEntry.OtpForm.HandleChange: the mismatch toast's close handler, which
  navigates back to "/otp" with the same `temp_id` and `otp`, is not modelled.
- Polling intervals, the `setTimeout` delays and overlapping or stale replies
  are not modelled: each poll is one call with its reply.
- Focus movement is a returned index, and the focus on slot 0 when the OTP
  page opens is the `initialFocus` field; `scrollIntoView` and all rendering
  and styling are left out.
- `parseFloat` and `toString` of the cost price are not modelled. The stored
  price is the validated draft string, and `StartEditing` takes the price's
  text from its caller.
- `Math.random` is not modelled: the two draws are inputs, already scaled and
  floored.
- Image aspect ratios in the advertisement strip are floating-point display
  code and are left out.
- The Unicode behaviour of `toLowerCase`, `\s` and `\d` is left out; only
  ASCII is modelled.
- Prototype keys such as "constructor" in the brand table are left out: the
  table is the four listed entries.
- set-ip.js outside its address check is left out: the prompt, the ping and
  the `.env.local` write.
- The admin user list fetch (src/admin/customers.tsx:22-27) only fills the
  list to click on, and is left out.
- The inventory page's initial load (src/admin/inventory.tsx:16, 22-37), with
  its `loading` flag and its "Error fetching inventory: " notice, is left out:
  the `InventoryPage` constructor takes the fetched items as given.
- src/pages/login.tsx, src/pages/loginPage.tsx and src/pages/auth/loginPage.tsx
  repeat the `isEmpty`/`isDisabled` rule of `LoginForm.IsDisabled` next to
  markup; they are not modelled separately.
- shop.tsx is not part of this model: its price bounds come from the browser's
  range inputs.
- Sign-up submission and the OTP verification request are left out as I/O; the
  model ends at the request payload and the verify request flag.
- OtpEntry.OtpForm.constructor: `otp` is modelled as a string. A non-string
  value from the navigation state would never equal the entered code under
  `===`; this is not modelled.
- OtpEntry.OtpForm.constructor: the authorization flag is set at
  construction. In the page it starts true and is cleared by an effect after
  the first render.
- CustomerSupport.SupportChat.ApplySnapshot: `fetch` does not fail on a non-2xx
  status, so a failure reply whose body decodes behaves as a snapshot. The
  model has no separate case for it.
- Conversation.ConversationView.SendMessage: an ok reply without a `message`
  field would append `undefined`; the model requires the reply to carry one.
- Conversation.ConversationView.Poll: a decoded body that is not an array would
  be stored as is; the model takes the reply as a list of messages.
- The IPv4 check accepts a two-digit field with a leading zero such as "01".
  RFC 3986 section 3.2.2 `dec-octet` does not (`SetIp.OctetFieldVersusDecOctet`).
  The model follows the script.
