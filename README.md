# gobertura in Dafny

A model of gobertura, the converter from Go coverage profiles to Cobertura
reports, and proofs about that model. The modelled core turns parsed profile
blocks and function declaration spans into the hierarchy
Coverage → Package → Class → Method → Line. It covers:

- the per-file statement totals (`profileCoverage`) and the report totals built from them;
- the scan that credits blocks to a function;
- the expansion of a credited block into line records;
- the grouping of functions into classes by receiver name, with one map per file;
- the package name, taken from the first file;
- the rate loops.

It also models the declaration visitor, which records each function's receiver
name and span.

The model has five modules:

- `Cover` holds the parser's output: profiles and blocks.
- `Visitor` is visitor.go: the receiver-name selection and `Visit`, which appends to the visitor's list in place.
- `Attribution` holds the specification as functions on values. They say which blocks a function is credited with, which line records a block becomes, the statement totals, and the class values of a file (`FileClasses`) and of all files (`AllClasses`).
- `Model` holds the report records of model.go. Each is a class, and `Line` objects are shared by reference between a method's list and its class's list. Rates are `Ratio` pairs (covered, total).
- `Gobertura` is gobertura.go: the conversion as imperative methods over those objects, proved against the `Attribution` functions. `Convert` ties the finished report to `AllClasses`:
  - The predicate `Built` says that the package's class objects stand, one for one, for the class values.
  - It also says that each class's line list is, object for object, the concatenation of its methods' line lists.
  - Every class and method rate is the rate of its own line list.

Rates are not floats. A rate is the pair the source divides, `Ratio(covered, total)`. A pair with `total == 0` is the source's division by zero; `Ratio.IsNaN` marks it. It is the NaN `0/0` because, with the non-negative statement counts the parser guarantees, covered never exceeds total. A negative count could make it an infinity in the source. The model follows the code here. It does not replace the NaN with 0, although a zero-denominator rate of 0 would be a natural convention. The report's covered total likewise follows the code (gobertura.go:31-33): a file whose statement total is 0 contributes 0 covered statements, even if some of its blocks ran.

## Model

| member | source | states |
|---|---|---|
| Visitor.ReceiverName | visitor.go:60-70 | None exactly when the receiver list is present but empty, where the source's index panics. The sentinel "-" when there is no receiver list. Any other name is the identifier of the first field's type T or *T. |
| Visitor.NamedReceiver | visitor.go:62-68 | A first receiver field of type T or *T, with T an identifier, gives the name T. |
| Visitor.UnnamedReceiver | visitor.go:60-69 | Any other first receiver type, such as a pointer to a non-identifier or another expression, gives "-". |
| Visitor.FirstFieldOnly | visitor.go:62 | Fields after the first never change the receiver name. |
| Visitor.Visitor.constructor | visitor.go:25-28 | A visitor for a file starts with no recorded functions. |
| Visitor.Visitor.Visit | visitor.go:55-85 | A function declaration appends exactly one definition with its name, the visitor's file, its receiver name and its start and end line and column. Any other node leaves the list unchanged. The visitor itself is returned. |
| Attribution.EndsScan | gobertura.go:97-99 | The break test is "the block does not start before the function's end" in lexicographic (line, column) order. |
| Attribution.SkippedBefore | gobertura.go:101-103 | The skip test is "the block does not end after the function's start" in lexicographic order. |
| Attribution.Attributed | gobertura.go:96-103 | The blocks the scan credits a function with, in file order. A block that ends at or before the function's start is skipped. The scan stops at the first block that starts at or after the function's end. Every other block is credited. |
| Attribution.AttributedWithin | gobertura.go:96-103 | The scan credits a function only with blocks of the file that overlap its half-open span, and with no more blocks than the file has. |
| Attribution.AttributedFrom | gobertura.go:96-103 | One step of the scan from any position: stop, skip, or credit the block and go on. |
| Attribution.OverlapFilterMembers | gobertura.go:96-103 | The reference filter keeps exactly the overlapping blocks. |
| Attribution.NothingOverlapsPastEnd | gobertura.go:97-99 | In a position-sorted list, nothing from the first block that triggers the break onwards overlaps the function, so breaking loses no block. |
| Attribution.ScanIsOverlapFilter | gobertura.go:96-103 | On position-sorted blocks the early-stopping scan credits exactly the overlapping blocks, in order. |
| Attribution.AttributedIffOverlaps | gobertura.go:96-103 | On position-sorted blocks, a block of the file is credited iff it ends after the function's start and starts before its end. |
| Attribution.LineRun | gobertura.go:105-111 | n records numbered start, start + 1, … each with the given hits and branch false, in loop order. |
| Attribution.StmtCount | gobertura.go:105 | How many times the expansion loop runs: NumStmt when it is positive, otherwise 0. |
| Attribution.Expand | gobertura.go:105-111 | The records of one credited block: StmtCount records from StartLine with the block's Count as hits. |
| Attribution.ExpandAll | gobertura.go:96-114 | The records of a list of credited blocks, block after block. |
| Attribution.MethodLines | gobertura.go:96-114 | A method's records: the expansion of the blocks the scan credits it with. |
| Attribution.LineRunAt | gobertura.go:105-111 | A run of n records has length n, and record k is numbered start + k with the given hits and no branch. |
| Attribution.ExpandNumbering | gobertura.go:105-111 | A credited block yields exactly NumStmt records, or none when NumStmt is not positive. Record i is numbered StartLine + i, has the block's Count as hits, and has Branch false. |
| Attribution.ExpandIgnoresEnd | gobertura.go:105-111 | The records do not depend on the block's end position, so they can be numbered past EndLine. |
| Attribution.HitCount | gobertura.go:124-128 | The number of records with positive hits, at most the number of records. |
| Attribution.HitCountAppend | gobertura.go:124-128 | The count of records with hits adds up over concatenation. |
| Attribution.TotalStmts | gobertura.go:25-26 | The sum of the NumStmt of a file's blocks. |
| Attribution.CoveredStmts | gobertura.go:27-29 | The sum of the NumStmt of the blocks whose Count is positive. |
| Attribution.FileCovered | gobertura.go:31-34 | The covered count a file reports: 0 when its statement total is 0, otherwise CoveredStmts. |
| Attribution.ReportValid | gobertura.go:69-70 | The report's LinesValid: the sum over the files, in order, of their statement totals. |
| Attribution.ReportCovered | gobertura.go:69-71 | The report's LinesCovered: the sum over the files, in order, of their reported covered counts. |
| Attribution.TotalsAppend | gobertura.go:25-30 | One more block adds its NumStmt to the total, and adds it to the covered count when the block ran. |
| Attribution.CoveredWithinTotal | gobertura.go:25-30 | With non-negative statement counts, 0 <= covered <= total. |
| Attribution.ExpandAllCounts | gobertura.go:105-114 | With non-negative statement counts, the expansion has one record per statement, and one record with hits per statement of a block that ran. |
| Attribution.FileCoveredWithinTotal | gobertura.go:31-34 | With non-negative statement counts, the zero-total guard changes nothing and covered stays within [0, total]. |
| Attribution.ReportCoveredWithinValid | gobertura.go:69-71 | With non-negative statement counts, the report's LinesCovered never exceeds LinesValid. |
| Attribution.Receivers | gobertura.go:79-89 | The receiver names of a file's functions, in first-seen order, are distinct. |
| Attribution.ReceiversCover | gobertura.go:79-89 | A name is among them iff some function of the file has it as receiver. |
| Attribution.FileClassesShape | gobertura.go:68-89 | Within one file: one class per distinct receiver, with pairwise distinct names, a class for every function's receiver, the profile's file name on every class, and no class without methods. |
| Attribution.MethodsOf | gobertura.go:91-117 | The methods of a receiver's class: one per function with that receiver, in declaration order, each holding MethodLines. |
| Attribution.FileClasses | gobertura.go:68-118 | The reference grouping of one file: one class per receiver in first-seen order, with the file name and MethodsOf that receiver. It is defined without the map or the loop. |
| Attribution.MethodsOfAbsent | gobertura.go:79-117 | A receiver that no function has gets no methods. |
| Attribution.MethodsOfPresent | gobertura.go:79-117 | A receiver that some function has gets at least one method. |
| Attribution.ClassIndex | gobertura.go:79 | The map lookup: the position of the class with the receiver's name, or the number of classes exactly when no class has that name. |
| Attribution.WithClass | gobertura.go:79-88 | After finding or creating the class, the receiver's position holds a class of that name, and names stay distinct. |
| Attribution.ClassIndexAppend | gobertura.go:79-88 | A class appended after the others is found only if no earlier class has the name. |
| Attribution.Inserted | gobertura.go:79-117 | One pass of the function loop on values: append the function's method to the class with its receiver's name, or append a new class holding only that method when no class has the name. |
| Attribution.InsertedWithClass | gobertura.go:79-117 | Handling a function is finding or creating its receiver's class, then appending its method to that class. |
| Attribution.FileClassesStep | gobertura.go:78-118 | The grouping by receivers of a file's functions grows exactly as the loop inserts the next function. |
| Attribution.Grouped | gobertura.go:78-118 | The function loop on values: Inserted applied to each function in declaration order, from no classes. |
| Attribution.GroupedIsFileClasses | gobertura.go:78-118 | Inserting the functions one by one, in declaration order, gives the grouping by receivers. |
| Attribution.GroupedDistinct | gobertura.go:79-89 | The classes built so far for a file have distinct names. |
| Attribution.AllClasses | gobertura.go:63-119 | The package's classes on values: the FileClasses of each profile with its declarations, file after file. |
| Attribution.AllClassesStep | gobertura.go:63-119 | One more profile appends that file's classes after those of the earlier files. |
| Attribution.AllClassesCount | gobertura.go:63-89 | The package has, summed over the files, one class per distinct receiver of each file. |
| Attribution.MethodOfEveryFunction | gobertura.go:91-117 | Every function's method is in the class of its receiver. |
| Attribution.OneMethodPerFunction | gobertura.go:78-118 | The classes of a file hold exactly as many methods as the file has functions. |
| Attribution.OneMethodPerDeclaration | gobertura.go:63-118 | The whole package holds exactly as many methods as there are function declarations over all files. |
| Attribution.MethodLinesFromBlocks | gobertura.go:96-114 | With non-negative statement counts, a method has one record per statement of its credited blocks, and one record with hits per statement of a credited block that ran. |
| Attribution.OneFunctionClasses | gobertura.go:78-118 | A file with one function has one class, for that receiver, holding that one method. |
| Attribution.SingleBlockLines | gobertura.go:96-114 | A block from (10,1) to (21,2) with 3 statements run 5 times, overlapping a function spanning (10,1) to (20,3) and reaching past its end, is credited in full and gives records 10, 11 and 12 with 5 hits each. |
| Attribution.SingleBlockScenario | gobertura.go:78-117 | The same block and function give a single "-" class whose three records all have hits. |
| Attribution.SameReceiverTwoFiles | gobertura.go:68 | The same receiver in two files gives two classes, one per file, because the map is fresh for each file. |
| Model.RateOf | gobertura.go:123-130 | The rate of a line list: the number of lines with positive hits over the number of lines. |
| Model.RateOfMeaning | gobertura.go:123-130 | A rate is covered over total with 0 <= covered <= total. It is NaN exactly for an empty list, and 1 exactly when every record has hits. |
| Model.ValuesAppend | gobertura.go:112-113 | The values of concatenated line lists are the concatenated values. |
| Model.SharesLines | gobertura.go:112-113 | The aliasing the two appends create: a class's line list is, object for object, its methods' line lists one after another. |
| Model.ValuesOfMethodLines | gobertura.go:112-117 | The values of the concatenated method line lists are the concatenation of the methods' records. |
| Model.SharedLinesValues | gobertura.go:112-117 | A class that shares its methods' line objects has as line values exactly the concatenation of its methods' records. |
| Model.ClassRateSumsMethods | gobertura.go:122-143 | A class's covered and total counts are the sums of those of its methods. |
| Model.Line.constructor | gobertura.go:106-110 | A line object storing the given number, hits and branch. ExpandBlock calls it with branch false. |
| Model.Method.constructor | gobertura.go:91-94 | A method with the function's name, an empty signature, zero rates and the given line objects. |
| Model.Class.constructor | gobertura.go:81-85 | A class with the receiver name, the file name, no methods, no lines and zero rates. |
| Model.Package.constructor | gobertura.go:52-55 | An unnamed package with branch rate 1 and no classes. |
| Model.Coverage.constructor | gobertura.go:48-50 | A report with only the timestamp set. |
| Gobertura.LastSlash | gobertura.go:159-161 | The position of the last '/', or -1 when there is none. |
| Gobertura.TrimTrailingSlashes | gobertura.go:159-161 | The longest prefix that does not end in '/'. Everything after it is slashes. |
| Gobertura.Clean | gobertura.go:160 | Trailing slashes removed, "." for the empty path, "/" for a path of slashes only. Never empty. |
| Gobertura.Dir | gobertura.go:160 | The path up to and including its last slash, with trailing slashes removed by Clean. |
| Gobertura.LastElement | gobertura.go:160 | The result has no slash. It is empty exactly when the string is empty or ends in '/'. |
| Gobertura.LastElementIsTail | gobertura.go:160 | The last element is a tail of the string, preceded by a slash unless it is the whole string: it is everything after the last slash. |
| Gobertura.LastElementAfterSlash | gobertura.go:160 | After an empty prefix or one ending in '/', a slash-free string is the last element. |
| Gobertura.Base | gobertura.go:160 | filepath.Base on slash paths. The contract states only that the result is never empty. The body gives "." for the empty path and "/" for a path of slashes only; otherwise it gives the LastElement of the path without its trailing slashes. |
| Gobertura.PackageName | gobertura.go:159-161 | The package name is never empty, so it is set only once. |
| Gobertura.PackageNameIsDirectory | gobertura.go:159-161 | For parent/dir/file, with dir a slash-free name other than "." and "..", and file free of slashes, the package name is dir. |
| Gobertura.PackageNameOfBareFile | gobertura.go:159-161 | A file with no directory part is in package ".". |
| Gobertura.ProfileCoverage | gobertura.go:23-35 | Total is the sum of NumStmt. Covered is the sum over blocks that ran. Both are 0 when the total is 0. |
| Gobertura.ExpandBlock | gobertura.go:105-114 | The class's line list gains exactly the returned line objects, which are freshly allocated, and their values are the block's expansion. |
| Gobertura.AttributeBlocks | gobertura.go:96-115 | The method's line objects are those the class's list gains, and their values are the expansion of the credited blocks. |
| Gobertura.CountLines | gobertura.go:123-129 | The counting loop yields the number of lines with hits and the number of lines. |
| Gobertura.ClassRates | gobertura.go:122-143 | The class and each of its methods get the rate of their own line list. |
| Gobertura.ComputeRates | gobertura.go:122-143 | Every class and every method gets the rate of its own line list. Method and line lists are unchanged. |
| Gobertura.AddMethod | gobertura.go:91-117 | The class gains one fresh method, holding the function's records, after its old methods, and still shares its line objects with them. |
| Gobertura.NewClass | gobertura.go:80-89 | A fresh, empty class for the receiver, entered in the map and appended to the package after the file's classes. |
| Gobertura.ClassFor | gobertura.go:79-89 | The class found or created for the receiver sits at the receiver's position among the file's classes. The objects stay in step with the values. |
| Gobertura.AddMethodAt | gobertura.go:91-117 | Only the class at the receiver's position gains the method. All classes still stand for their values. |
| Gobertura.AddFunction | gobertura.go:78-118 | One pass of the function loop: the file's class objects stand for the class values with the function inserted, and the map indexes them. |
| Gobertura.FileStep | gobertura.go:78-118 | After the i-th function, the file's classes stand for the grouping of the first i+1 functions. |
| Gobertura.ProcessFile | gobertura.go:68-118 | The classes appended for a file are fresh and stand for that file's grouping. Each shares its line objects with its methods. |
| Gobertura.AddProfile | gobertura.go:63-118 | The name is set from the first file only. The totals grow by the file's pair. The file's classes join the package. |
| Gobertura.ReportName | gobertura.go:64-66 | The package name after some files: empty before the first file, then that file's PackageName. Later files never change it. |
| Gobertura.ReportNext | gobertura.go:64-71 | One more profile: the package name changes only from empty, and the totals add the file's pair. |
| Gobertura.ConvertStep | gobertura.go:63-119 | The package's classes stand for the class values of the profiles so far, with the new file's classes appended. |
| Gobertura.ConvertFiles | gobertura.go:63-119 | After all profiles: the package name, LinesValid and LinesCovered are those of `ReportName`, `ReportValid` and `ReportCovered`, and the classes stand for AllClasses. |
| Gobertura.Finish | gobertura.go:121-147 | Package and report rates are LinesCovered over LinesValid. Class and method rates are those of their own lines. Branch rate is 1. The report holds the single package. The classes, the totals and the fields it does not assign are unchanged. |
| Gobertura.BranchFree | gobertura.go:48-50 | The report fields no loop assigns keep their zero values: empty Version, no branch counts and complexity 0. |
| Gobertura.Convert | gobertura.go:48-147 | The whole conversion: timestamp, totals, rates and one package named after the first file. Its classes stand for AllClasses and share line objects with their methods. Every class and method rate is that of its own lines. Version, branch counts and the report's and package's complexities keep their zero values. |

## Left out

- Flag parsing, the usage text and the exit on a missing option (gobertura.go:13-21, 38-43): these are command-line plumbing.
- The XML encoder, the header and DOCTYPE lines, `Encode` and the XML tags of model.go: this is serialisation through a library.
- `cover.ParseProfiles`: the parsed profiles are the input of `Convert`. `NonNegative` and `SortedByStart` state what the parser guarantees, where a lemma needs it.
- `FindFuncs`, with its `build.Import`, `parser.ParseFile` and `ast.Walk`: these are file-system calls and a foreign parser. `Convert` takes a function from file name to declaration list instead.
- `time.Now`: the timestamp is a parameter.
- The panics on parser, FindFuncs and encoder errors: the error paths are outside the modelled inputs.
- Float division: rates are integer pairs, and the NaN of a zero denominator is the pair with total 0.
- The width of int64 and int: counts are unbounded integers, so overflow of `LinesValid`, `LinesCovered` or a line number is not modelled.
- `StructDefinition` and `Structs`: the visitor never fills them.
- The profile's `Mode`: the converter never reads it.
- Visitor.Visitor.Visit: requires that a receiver list, when present, is non-empty. For an empty list the source's `List[0]` panics, and `ReceiverName` returns None for that case.
- Gobertura.Clean: only removes trailing slashes and handles the empty and all-slash paths. It keeps repeated slashes inside the path and does not resolve "." or ".." elements, which `filepath.Clean` does.
- Gobertura.Dir: because of Clean, it can differ from `filepath.Dir`: "a//b/c.go" gives "a//b" where Go gives "a/b". Base only reads the last element, so `Base(Dir(p))` differs from Go only on "." and ".." elements.
- Gobertura.PackageName: models `filepath.Dir` and `filepath.Base` on slash-separated paths only. It removes trailing slashes and maps the empty path to "." and an all-slash path to "/". It does not resolve "." and ".." as `filepath.Clean` does.
- Gobertura.Convert: does not restate that the branch rates and complexities of classes and methods keep their zero values, or that every method's Signature is empty. The constructors state those values, and nothing in the conversion assigns those fields.
- Model.Method.constructor: the source creates the method with an empty line list and appends to it while scanning the blocks. The model collects the same line objects first and creates the method with them. The objects, and their order in both lists, are the same.
