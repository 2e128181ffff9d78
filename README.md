# A Dafny model of the PyQt tool suite's core

The suite is a PyQt6 desktop application. Its main window lists a dozen small
tools in a category tree and shows each tool as a page of a stacked widget.
This project models that registry and the logic of six tools:

- the scientific calculator's expression buffer (`Calculator.dfy`): the button
  and key dispatch, the sign toggle, the rewrite of display symbols into Python
  names, and the evaluation guards;
- the clipboard history (`ClipboardTool.dfy`);
- the JSON statistics walk and its validation status (`JsonFormatter.dfy`);
- the batch file renamer (`FileRenamer.dfy`): the rule placeholders, the
  extension guarantee, and the path handling;
- the text encryptor's two-line key/token envelope (`TextEncryptor.dfy`);
- the URL shortener's normalisation, request and reply handling (`UrlShortener.dfy`);
- the main window's tool registry, tree, pages and click handling
  (`MainWindow.dfy`).

Python's string operations that these rest on are in `StringOps.dfy`:

- `in` on strings, `startswith` and `endswith`;
- `count`, `replace`, `split` and `strip`;
- `str()` of a natural number.

Each dialog whose methods update fields is a Dafny `class`. Each method is
proved against a pure function of the old state, and the lemmas are about
those functions.

Foreign code is passed in as function-valued parameters:

- Python's `eval` and float formatting, as the calculator's `Engine`;
- `json.loads`;
- Fernet encryption and decryption;
- `QUrl.isValid` and `requests.get`;
- `os.rename`.

## Model

| member | source | states |
|---|---|---|
| `Calculator.TrailingNumber` | ui/tools/calculator.py:512 | the match of `([-+*/^(]?)(\d+\.?\d*)$`: the number group is a numeral that ends the text, and a non-empty prefix group is the one sign character just before it; there is no match exactly when the text has no such numeral |
| `Calculator.SearchFrom` | ui/tools/calculator.py:512 | `re.search` takes the leftmost position where the pattern matches through to the end, and no position before it matches |
| `Calculator.NegateAfterMinus` | ui/tools/calculator.py:515-517 | a number after "-" loses that minus sign, whatever stands before it |
| `Calculator.NegateBeforeNumeral` | ui/tools/calculator.py:518-520 | a number not preceded by a minus sign, a digit or a dot gets a "-" inserted before it |
| `Calculator.TrailingAfterSign` | ui/tools/calculator.py:512-514 | after one of `-+*/^(`, that character is the prefix group and the numeral the number group |
| `Calculator.NegateTwiceRestores` | ui/tools/calculator.py:506-525 | pressing ± twice on a text ending in a number without a minus prefix gives the text back |
| `Calculator.NegateTwiceRestoresNegative` | ui/tools/calculator.py:515-520 | pressing ± on a negated number removes the sign, and pressing it again restores it |
| `Calculator.NegateJoinsOperands` | ui/tools/calculator.py:515-517 | the minus of a subtraction is taken for a sign: "3-5" becomes "35", and then "-35" |
| `Calculator.NegateWithoutNumber` | ui/tools/calculator.py:521-523 | a text not ending in a digit or a dot gets "(-" appended |
| `Calculator.RewritesAreNeutral` | ui/tools/calculator.py:535-555 | every rewrite pattern is non-empty and keeps the difference between '(' and ')' counts |
| `Calculator.RewriteKeepsBalance` | ui/tools/calculator.py:534-564 | the parenthesis check after the rewrites sees the balance of the text as typed |
| `Calculator.ReplaceAll` | ui/tools/calculator.py:534-555 | applying the replacements one after another in a loop gives the chained `replace` result |
| `Calculator.OperatorSpellingsAgree` | ui/tools/calculator.py:535-537 | an expression ending in "×" or "÷" is evaluated as one ending in "*" or "/" |
| `Calculator.BlankEvaluatesToZero` | ui/tools/calculator.py:530-561 | a blank expression becomes "0" on both the expression and the display, with the history showing the original text |
| `Calculator.UnbalancedIsRejected` | ui/tools/calculator.py:563-565 | unequal '(' and ')' counts give "错误", an emptied expression, and the "括号不匹配" note in the history |
| `Calculator.EvaluationDecides` | ui/tools/calculator.py:570-601 | a balanced, non-blank expression shows eval's result and sets `has_result`, or on an exception shows "错误" and clears the expression |
| `Calculator.DigitButton` | ui/tools/calculator.py:339-342 | a digit after a result starts a new expression; otherwise it is appended |
| `Calculator.DigitKeyMatchesButton` | ui/tools/calculator.py:727-729 | typing a digit key does what clicking that digit's button does |
| `Calculator.NonDigitButtonKeepsExpression` | ui/tools/calculator.py:339-342 | a caption that does not start with a digit skips the restart check |
| `Calculator.OperatorAfterResultIsLost` | ui/tools/calculator.py:339-342 | after a result, "+" is appended and the result flag stays set, so the next digit discards both the result and the "+" |
| `Calculator.EmptyKeyTextRestarts` | ui/tools/calculator.py:731-738 | a key with empty text passes the operator test, and after a result it empties the expression |
| `Calculator.MultiplyDivideKeys` | ui/tools/calculator.py:733-736 | the "*" and "/" keys append the display symbols "×" and "÷" |
| `Calculator.MultiplyButton` | ui/tools/calculator.py:392-393 | the × button appends "*" |
| `Calculator.DivideButton` | ui/tools/calculator.py:394-395 | the ÷ button appends "/" |
| `Calculator.TrigButtonsFollowAngleMode` | ui/tools/calculator.py:439-445 | in degree mode sin, cos and tan open "(radians(", the other functions and radian mode open "(" |
| `Calculator.ModeButtons` | ui/tools/calculator.py:402-407 | the rad and deg buttons set the angle mode and change nothing else |
| `Calculator.ClearButton` | ui/tools/calculator.py:490-494 | C empties the expression and both displays and clears the result flag; memory and angle mode stay |
| `Calculator.ClearEntryButton` | ui/tools/calculator.py:496-500 | CE is C except that it keeps the history display |
| `Calculator.MemoryClearButton` | ui/tools/calculator.py:408-409 | MC sets the memory to zero and nothing else |
| `Calculator.EmptyExpressionActions` | ui/tools/calculator.py:410-427 | MS, M+, M- and % do nothing on an empty expression |
| `Calculator.BackspaceUndoesAppend` | ui/tools/calculator.py:502-504 | ⌫ removes the last appended character, and leaves an empty expression empty |
| `Calculator.Calculator.constructor` | ui/tools/calculator.py:48-51 | empty expression, no result, memory 0, degree mode |
| `Calculator.Calculator.ToggleAngleMode` | ui/tools/calculator.py:316-322 | flips the angle mode |
| `Calculator.Calculator.AppendToExpression` | ui/tools/calculator.py:486-488 | appends the token and shows the new expression |
| `Calculator.Calculator.AppendFunction` | ui/tools/calculator.py:439-445 | appends the function token chosen by the angle mode |
| `Calculator.Calculator.Clear` | ui/tools/calculator.py:490-494 | the new state is the cleared state |
| `Calculator.Calculator.ClearEntry` | ui/tools/calculator.py:496-500 | the new state is the entry-cleared state |
| `Calculator.Calculator.DeleteLast` | ui/tools/calculator.py:502-504 | drops the last character |
| `Calculator.Calculator.Negate` | ui/tools/calculator.py:506-525 | the new expression is the sign toggle of the old one |
| `Calculator.Calculator.Calculate` | ui/tools/calculator.py:527-601 | the new state is the evaluation of the rewritten expression |
| `Calculator.Calculator.Conclude` | ui/tools/calculator.py:557-601 | the guards and the evaluation after the rewrites |
| `Calculator.Calculator.ButtonClicked` | ui/tools/calculator.py:335-437 | the restart check, then the caption's action |
| `Calculator.Calculator.Restart` | ui/tools/calculator.py:339-342 | the restart check on the caption |
| `Calculator.Calculator.PerformAction` | ui/tools/calculator.py:344-437 | the dispatch on the caption |
| `Calculator.Calculator.MemoryUpdate` | ui/tools/calculator.py:410-427 | MS, M+ and M- update the memory only when the expression converts |
| `Calculator.Calculator.ProcessKeyInput` | ui/tools/calculator.py:776-783 | the restart check, then the text is appended |
| `Calculator.Calculator.KeyPressEvent` | ui/tools/calculator.py:722-774 | the key dispatch |
| `ClipboardTool.RecordKeepsInvariant` | ui/tools/clipboard_tool.py:88-92 | the history keeps at most ten entries, none empty and none twice |
| `ClipboardTool.RecordIgnores` | ui/tools/clipboard_tool.py:88 | an empty text or a text already in the history changes nothing |
| `ClipboardTool.RecordAppends` | ui/tools/clipboard_tool.py:88-92 | a new text becomes the last entry; the older ones keep their order, and the oldest is dropped when the history was full |
| `ClipboardTool.ClipboardTool.constructor` | ui/tools/clipboard_tool.py:19 | empty history |
| `ClipboardTool.ClipboardTool.SetVisible` | ui/tools/clipboard_tool.py:84 | the visibility that `clipboard_changed` tests |
| `ClipboardTool.ClipboardTool.ClipboardChanged` | ui/tools/clipboard_tool.py:81-93 | ignored while hidden; otherwise the history is the recorded one and a new text is shown |
| `ClipboardTool.ClipboardTool.GetClipboard` | ui/tools/clipboard_tool.py:62-65 | the text area shows the clipboard text |
| `ClipboardTool.ClipboardTool.SetClipboard` | ui/tools/clipboard_tool.py:69-73 | copies the text area only when it is non-empty |
| `ClipboardTool.ClipboardTool.ClearContent` | ui/tools/clipboard_tool.py:78-79 | empties the text area and keeps the history |
| `JsonFormatter.GetJsonStats` | ui/tools/json_formatter.py:312-357 | the counts equal the reference counts of the value's tree: keys count as strings, booleans as numbers, and the depth is the start depth plus the tree's height |
| `JsonFormatter.ObjectStats` | ui/tools/json_formatter.py:317-331 | the object loop adds one string per key and each member's counts, and keeps the deepest member's depth |
| `JsonFormatter.ArrayStats` | ui/tools/json_formatter.py:333-346 | the array loop adds each item's counts and keeps the deepest item's depth |
| `JsonFormatter.Add` | ui/tools/json_formatter.py:325-327 | adding a child's counts keeps the depth and adds the totals |
| `JsonFormatter.ScalarStats` | ui/tools/json_formatter.py:348-355 | a scalar is counted exactly once, in its own class, at the given depth |
| `JsonFormatter.ObjectOfStrings` | ui/tools/json_formatter.py:317-331 | an object of n string members counts 2n strings and one object, one level deeper when non-empty |
| `JsonFormatter.WrappingAddsOneLevel` | ui/tools/json_formatter.py:333-346 | wrapping a value in an array adds one array and one level of depth |
| `JsonFormatter.BooleansCountAsNumbers` | ui/tools/json_formatter.py:350-353 | `isinstance(True, int)` holds, so booleans count as numbers and the boolean count stays 0 |
| `JsonFormatter.JsonFormatter.constructor` | ui/tools/json_formatter.py:53-58 | empty text and status |
| `JsonFormatter.JsonFormatter.ValidateJson` | ui/tools/json_formatter.py:277-310 | empty text asks for input, a parse error is reported with its message, and valid JSON is reported with its statistics |
| `FileRenamer.RFind` | ui/tools/file_renamer.py:81-82 | the last position of the character, or -1 |
| `FileRenamer.Basename` | ui/tools/file_renamer.py:65 | the last path component: a suffix of the path without '/' that is the whole path or starts right after a '/' |
| `FileRenamer.TrimSlashes` | ui/tools/file_renamer.py:81 | a prefix of the text that does not end in '/', and only slashes were removed after it |
| `FileRenamer.SplitExt` | ui/tools/file_renamer.py:83 | name and extension concatenate back to the file name |
| `FileRenamer.SplitExtShape` | ui/tools/file_renamer.py:83 | the extension is empty or one dot followed by no dot, with a non-empty name before it |
| `FileRenamer.LeadingDotsOnly` | ui/tools/file_renamer.py:83 | dots only at the start do not begin an extension |
| `FileRenamer.ExtensionFromLastDot` | ui/tools/file_renamer.py:83 | a name with a character other than '.' before its last '.' splits there: the extension is that '.' and what follows |
| `FileRenamer.DotfileExample` | ui/tools/file_renamer.py:83 | ".bashrc" has no extension and "a.tar.gz" has ".gz" |
| `FileRenamer.NewNameKeepsExtension` | ui/tools/file_renamer.py:86-92 | the new name always ends with the original extension |
| `FileRenamer.PlainRule` | ui/tools/file_renamer.py:86-92 | a rule without placeholders is used as it is, with the extension added unless it already ends with it |
| `FileRenamer.NameCanCarryPlaceholders` | ui/tools/file_renamer.py:86-88 | the replacements are chained, so a "{ext}" inside the substituted name is replaced too |
| `FileRenamer.NewNameHasNoSlash` | ui/tools/file_renamer.py:86-92 | without '/' in the rule, the name or the extension, the new name has none |
| `FileRenamer.JoinStaysInDirectory` | ui/tools/file_renamer.py:94 | joining a slash-free name to a directory gives a path with that directory and that name |
| `FileRenamer.TargetStaysInDirectory` | ui/tools/file_renamer.py:80-94 | for a rule without '/', the target stays in the file's directory, and its name is the rule applied to the file's name and extension |
| `FileRenamer.AbsoluteRuleLeavesDirectory` | ui/tools/file_renamer.py:86-94 | a rule starting with '/' makes the target the new name itself: `os.path.join` drops the file's directory |
| `FileRenamer.RuleWithoutPlaceholdersCollides` | ui/tools/file_renamer.py:80-97 | without placeholders, files of one directory with the same extension all get the same target, whatever their names and positions |
| `FileRenamer.FileRenamer.constructor` | ui/tools/file_renamer.py:8-14 | nothing selected |
| `FileRenamer.FileRenamer.SelectFiles` | ui/tools/file_renamer.py:58-65 | a non-empty choice replaces the selection, and the list shows each file's base name; an empty choice changes nothing |
| `FileRenamer.Reported` | ui/tools/file_renamer.py:67-106 | the "no files" warning exactly for an empty selection, the "no rule" warning exactly for a selection with an empty rule, success exactly when every selected file was renamed, with that count, and otherwise the failure after the renames done |
| `FileRenamer.FileRenamer.RenameFiles` | ui/tools/file_renamer.py:67-106 | the "no files" warning exactly when nothing is selected, the "no rule" warning exactly when files are selected and the rule is empty; otherwise the files are renamed in order to their targets, with index i+1, until one rename fails, and the outcome is the success count when all were renamed and the failure otherwise; success empties the selection, anything else keeps it |
| `FileRenamer.RenameEach` | ui/tools/file_renamer.py:80-98 | the loop renames a prefix of the files, the i-th (from 1) to the path the target function gives it, every rename done succeeded, and it stops at the first that fails |
| `FileRenamer.PlannedAt` | ui/tools/file_renamer.py:80-98 | the loop's k-th rename (from 0) is the k-th file going to its target for index k + 1, whatever the target function |
| `FileRenamer.PlannedRenamesInOrder` | ui/tools/file_renamer.py:80-94 | under a rule, the k-th rename is the k-th file going to its target path for index k + 1 |
| `TextEncryptor.EnvelopeRoundTrip` | ui/tools/text_encryptor.py:179-205 | parsing the text `encrypt` writes gives back its key and token when neither holds a newline or ": " |
| `TextEncryptor.LabelsAreNotChecked` | ui/tools/text_encryptor.py:204-205 | any label before ": " is accepted; the values are the pieces after it |
| `TextEncryptor.FieldAfterLabel` | ui/tools/text_encryptor.py:204-205 | `split(': ')[1]` of a labelled line is the value |
| `TextEncryptor.ExtraLinesIgnored` | ui/tools/text_encryptor.py:200-205 | lines after the second do not change what is parsed |
| `TextEncryptor.SingleLineRejected` | ui/tools/text_encryptor.py:200-202 | the format error is raised exactly for a text without a newline |
| `TextEncryptor.MissingSeparatorRejected` | ui/tools/text_encryptor.py:204 | a first line without ": " fails with the index error |
| `TextEncryptor.Encrypted` | ui/tools/text_encryptor.py:165-182 | empty text changes nothing; otherwise the key is the new one and the text area holds the envelope of key and token |
| `TextEncryptor.Decrypted` | ui/tools/text_encryptor.py:190-217 | the key is never changed; empty text changes nothing; the text area changes only on success, to the result |
| `TextEncryptor.DecryptUndoesEncrypt` | ui/tools/text_encryptor.py:165-212 | decrypting right after encrypting restores the text, keeps the key, and sets the result to the text |
| `TextEncryptor.TextEncryptor.constructor` | ui/tools/text_encryptor.py:24-25 | no key, no result, status ready |
| `TextEncryptor.TextEncryptor.Encrypt` | ui/tools/text_encryptor.py:165-182 | the new state is the encrypted state |
| `TextEncryptor.TextEncryptor.Decrypt` | ui/tools/text_encryptor.py:190-212 | the new state is the decrypted state |
| `TextEncryptor.TextEncryptor.CopyKey` | ui/tools/text_encryptor.py:220-227 | copies the key only when there is one |
| `TextEncryptor.TextEncryptor.CopyResult` | ui/tools/text_encryptor.py:234-241 | copies the result only when there is one |
| `UrlShortener.Normalize` | ui/tools/url_shortener.py:167-173 | none exactly for blank input; otherwise a URL with an http or https scheme that ends with the stripped input |
| `UrlShortener.NormalizeIdempotent` | ui/tools/url_shortener.py:167-173 | normalising a normalised URL changes nothing |
| `UrlShortener.SchemeIsKept` | ui/tools/url_shortener.py:172 | a trimmed URL that already has a scheme is kept as it is |
| `UrlShortener.UpperCaseSchemeIsPrefixed` | ui/tools/url_shortener.py:172-173 | the scheme test is case-sensitive: "HTTP://x" becomes "https://HTTP://x" |
| `UrlShortener.BlanksAreStripped` | ui/tools/url_shortener.py:167 | any blank text before and after a URL that has no blanks at its ends is dropped before normalising |
| `UrlShortener.RequestFor` | ui/tools/url_shortener.py:165-186 | a request is made exactly when the stripped input is not blank and the normalised URL is valid, and it is the API base followed by the normalised URL, unescaped |
| `UrlShortener.AfterReply` | ui/tools/url_shortener.py:188-200 | a 200 reply sets the result line and the short URL to its body; anything else keeps both and shows a failure status |
| `UrlShortener.ShortenedState` | ui/tools/url_shortener.py:165-200 | the input is unchanged, blank input or a refused URL changes nothing, and the short URL changes only on a 200 reply to the request, to its body |
| `UrlShortener.FailureKeepsResult` | ui/tools/url_shortener.py:188-200 | an unreachable server or a reply other than 200 keeps the previous result and reports the failure |
| `UrlShortener.UrlShortener.constructor` | ui/tools/url_shortener.py:16 | no short URL, status ready |
| `UrlShortener.UrlShortener.Type` | ui/tools/url_shortener.py:167 | the input line the tool reads |
| `UrlShortener.UrlShortener.ShortenUrl` | ui/tools/url_shortener.py:165-200 | the request made is the one `RequestFor` gives for the input, and the new state is the shortened state |
| `UrlShortener.UrlShortener.ClearFields` | ui/tools/url_shortener.py:203-208 | both lines emptied, no short URL, status ready |
| `UrlShortener.UrlShortener.CopyUrl` | ui/tools/url_shortener.py:210-220 | copies the result line only when it is non-empty |
| `MainWindow.Owners` | ui/main_window.py:301-324 | one category name per flattened tool |
| `MainWindow.PagesOf` | ui/main_window.py:442-452 | one tool page per tool, in order, holding its class |
| `MainWindow.FlattenStep` | ui/main_window.py:428-430 | each category extends `tools_list` by its tools |
| `MainWindow.FlattenConsecutive` | ui/main_window.py:301-324 | tool j of category c has the index that follows all tools of earlier categories, and that category as owner |
| `MainWindow.RegistrySize` | ui/main_window.py:259-282 | the registry has fourteen tools in the four named categories |
| `MainWindow.Clicked` | ui/main_window.py:454-472 | an item without data toggles its expansion and keeps the page; an item with index i shows page i+1 when it exists and keeps the current page when it does not; nothing else changes |
| `MainWindow.ClickingToolShowsIt` | ui/main_window.py:457-469 | clicking the item of tool i shows page i+1, which holds that tool's class |
| `MainWindow.ClickingCategoryToggles` | ui/main_window.py:460-465 | clicking a category item toggles it, keeps the page and keeps the registry intact |
| `MainWindow.ToolsApp.constructor` | ui/main_window.py:298-324 | every tool has its item with index i under its category, `tools_list` is the flattening, page 0 is the welcome page and page i+1 holds tool i, and `tool_instances` is keyed by the tools' class names |
| `MainWindow.ToolsApp.BuildTree` | ui/main_window.py:298-324 | the registry loop gives consecutive indices in category order and registers every category item |
| `MainWindow.ToolsApp.AddCategoryTools` | ui/main_window.py:321-324 | each tool of one category gets an item under that category's item, with the next index, and no category registration changes |
| `MainWindow.RegisteredAppend` | ui/main_window.py:322-324 | appending a tool item that carries the next index keeps every earlier tool item registered as it was |
| `MainWindow.ToolsApp.AddTreeItem` | ui/main_window.py:482-512 | the tool item goes under the given category item, or under the registered one of that name, or under a newly created and registered one |
| `MainWindow.ToolsApp.CollectTools` | ui/main_window.py:428-430 | `tools_list` is the concatenation of the categories' tools |
| `MainWindow.ToolsApp.InitToolPages` | ui/main_window.py:442-452 | one page per tool appended in order, each recorded under its class name; entries for other class names are left as they were |
| `MainWindow.ToolsApp.HandleToolSelection` | ui/main_window.py:454-472 | the new tree and page are the click's outcome |
| `StringOps.Split` | ui/tools/text_encryptor.py:200 | joining the pieces with the separator gives the text back |
| `StringOps.SplitAfterPiece` | ui/tools/text_encryptor.py:200-205 | text before the first separator is the first piece |
| `StringOps.SplitFindsSeparator` | ui/tools/text_encryptor.py:200-201 | a text holding the separator splits into at least two pieces |
| `StringOps.Replace` | ui/tools/calculator.py:535-555 | a text without the pattern is unchanged |
| `StringOps.ReplaceJoinsPieces` | ui/tools/calculator.py:535-555 | `s.replace(p, r)` equals `r.join(s.split(p))`: the pieces between occurrences are kept and each occurrence becomes the replacement |
| `StringOps.ReplaceKeepsBalance` | ui/tools/calculator.py:564 | replacing by a text with the same parenthesis balance keeps the balance |
| `StringOps.StripEmptyIffBlank` | ui/tools/url_shortener.py:167-168 | the stripped text is empty exactly when the text is blank, and otherwise begins and ends with non-blank characters |
| `StringOps.Decimal` | ui/tools/file_renamer.py:86 | `str(i+1)`: a non-empty string of digits without a leading zero whose decimal value is the number |

## Left out

- The calculator's `eval` and float formatting: `Engine.evaluate` stands for `eval` together with the display formatting (integral results, `round(…, 10)`, trailing zeros, complex results with 'i'). The retry after a `SyntaxError` on a trailing operator is part of it too.
- The MS, M+, M-, MR and % buttons: `float(eval(...))`, `str(memory)` and `calculate_percentage`'s arithmetic come from the `Engine`. The memory is a `real`, so MC's integer 0 and a stored float are not told apart.
- The 2ⁿᵈ button: `toggle_second_function` does nothing, and neither does the model.
- The calculator's help dialog, styles, gradients and button press effect (a `QTimer` restoring the style): presentation only.
- `\d` in the sign-toggle pattern is modelled as ASCII digits. Python's `$` also matching before a final newline is not modelled.
- `calculate` writes the original expression into the history first and overwrites it afterwards. The model writes the final history once, which gives the same final state.
- Exceptions raised by Qt or the clipboard inside `try` blocks (clipboard, encryptor and shortener dialogs) are not modelled. Neither are the message boxes.
- `json.loads` is the parameter `load`. JSON numbers are split into integers and floats only to be counted.
- `json.loads` keeps only the last value of a repeated object key. The model's `load` may return objects with repeated keys, so the statistics lemmas also range over values `json.loads` never produces.
- Fernet key generation, encryption and decryption are parameters. Bytes are taken to be the text they decode to, so a `UnicodeDecodeError` raised after `current_result` was already set is not modelled.
- `os.rename` is the parameter `renameOk`. An exception's message and the partial count shown then are reduced to the `Failed` outcome. The file dialog is the argument of `SelectFiles`.
- The file system is not modelled: `renameOk` is a fixed predicate, so one rename cannot affect the next. When two files get the same target (see `RuleWithoutPlaceholdersCollides`), POSIX `os.rename` silently replaces the file renamed first; the model does not show that loss.
- A rule holding "/" or ".." can send files outside their directory (see `AbsoluteRuleLeavesDirectory`); the model does not resolve ".." components.
- Paths follow `posixpath`; Windows path rules are not modelled.
- `requests.get` and `QUrl.isValid` are the parameters `fetch` and `valid`. The clipboard copy of the short URL is the out-parameter of `CopyUrl`.
- The main window's icons, styles, welcome page contents, help text and browser button are not modelled. `add_tree_item`'s choice of icon by category name is also left out.
- `tool_instances` is a module-level dictionary in the source; here it is a field of `ToolsApp`. The instances are represented by the page that holds them.
- MainWindow.ToolsApp.InitToolPages: with two tools of the same class, the recorded page is the later one. The contract states only that each recorded page holds that class.
- `QTreeWidget` item identity is the item's position in `tree`, and Qt's expansion of a leaf item is modelled as a plain flag toggle.
- The remaining tools (hash calculator, Base64, timestamp, colour picker, image compressor, QR code, text diff, weather) are not part of this model.
