# Azure Functions for Rust: scaffolding rules, queue-trigger binding, wire vocabulary

This project models three self-contained pieces of the Azure Functions for Rust
SDK in Dafny, and proves what each one promises.

- **The `new` command** (`NewCommand`, with `StringOrder` for Rust's string
  ordering and `sort`):
  - How a new function's name is checked and turned into the path of its
    source file.
  - How a `syn::Path` is printed.
  - How the module list and export list of `src/functions/mod.rs` are rebuilt
    when a function is added.
  - The filesystem is a `Disk` value: a set of directories and a set of files.
    `src/functions/mod.rs` arrives already parsed, as a sequence of items.
- **The queue-trigger binding** (`QueueTriggerBinding`): how it is written into
  `function.json` through a map serializer that records entries in order.
  - A reader (`QueueTriggerOf`) recovers the binding from those entries.
- **The worker/host message vocabulary** (`RpcMessages`):
  - The messages and their `oneof` unions.
  - The nullable wrappers, with their three states.
  - The `#[repr(i32)]` enumerations, with decoders from raw codes.
  - The field-tag table of `StreamingMessage.content`.

`Wrappers` holds the `Option` and `Result` datatypes.

## Model

| member | source | states |
|---|---|---|
| NewCommand.NamePatternAgrees | azure-functions-sdk/src/commands/new.rs:42-47 | The regex `^[a-zA-Z][a-zA-Z0-9_]*$`, matched as a letter followed by a starred class, accepts exactly the non-empty names that start with an ASCII letter and continue with ASCII letters, digits and `_`. |
| NewCommand.Utf8Length | azure-functions-sdk/src/commands/new.rs:49 | `str::len` counts UTF-8 bytes, which is between one and four per character. |
| NewCommand.ValidNameByteLength | azure-functions-sdk/src/commands/new.rs:49-51 | For an all-ASCII name, which every name passing the pattern is, the byte length equals the character count. |
| NewCommand.Message | azure-functions-sdk/src/commands/new.rs:46-59 | The error texts of the four name and path checks (the `export!` parse failure's text is in the same function). Only the existence error opens with a quote, followed by the offending path. |
| NewCommand.MessageInjective | azure-functions-sdk/src/commands/new.rs:46-59 | Different errors are reported with different texts, so the message identifies the failed check and, for an existing target, its path. |
| NewCommand.GetPathForFunction | azure-functions-sdk/src/commands/new.rs:41-63 | The result is Ok exactly when the name matches the pattern, is at most 127 bytes, `src/functions` is a directory and the target path does not exist. The checks are applied in that order, and each failure yields its own error. An over-long invalid name gets the pattern error. A missing directory is reported before an existing target. The Ok value is exactly `"src/functions/" + name + ".rs"`, and the name can be read back from it. |
| NewCommand.FunctionPathRoundTrip | azure-functions-sdk/src/commands/new.rs:57 | The name can be recovered from the path `src/functions/<name>.rs`. |
| NewCommand.FunctionPathInjective | azure-functions-sdk/src/commands/new.rs:57 | Two different names never map to the same source path. |
| NewCommand.FormatPath | azure-functions-sdk/src/commands/new.rs:110-130 | The loop with its `first` flag produces the optional leading `::` followed by the segment identifiers joined by `::`. Generic arguments are dropped. |
| NewCommand.SplitJoin | azure-functions-sdk/src/commands/new.rs:118-127 | Joining colon-free identifiers with `::` and then cutting at every `::` gives the identifiers back. The join is therefore lossless, with no separator after the last identifier. |
| NewCommand.FormatPathSplits | azure-functions-sdk/src/commands/new.rs:114-127 | Cutting a printed path at every `::` gives an empty piece for a leading colon, then each segment's identifier in order. A path of n segments therefore prints with n - 1 separators between identifiers. |
| NewCommand.FormatPathLeadingColon | azure-functions-sdk/src/commands/new.rs:114-116 | A printed well-formed path starts with `::` if and only if the path has a leading colon. |
| NewCommand.FormatPaths | azure-functions-sdk/src/commands/new.rs:152-158 | Prints each parsed argument path of an `export!` invocation, in order. |
| NewCommand.ListsGrowByItem | azure-functions-sdk/src/commands/new.rs:145-163 | Each item adds its name to the module list only if it is a `mod`, and adds its printed paths to the export list only if it is an `export!` invocation. It causes failure only if it is an `export!` whose arguments do not parse. |
| NewCommand.ExportFunction | azure-functions-sdk/src/commands/new.rs:142-169 | The result is Err exactly when some `export!` invocation has arguments that are not a path list. Otherwise it returns the `mod` names plus the new name, sorted, and the printed `export!` arguments plus `name::name`, sorted. |
| NewCommand.ModuleNamesMembers | azure-functions-sdk/src/commands/new.rs:145-149 | A name is on the collected module list if and only if the file has a `mod` item of that name. |
| NewCommand.ExportedPathsMembers | azure-functions-sdk/src/commands/new.rs:150-161 | A path is on the collected export list if and only if some macro whose last segment is `export` names it. No other item contributes. |
| NewCommand.NewModuleList | azure-functions-sdk/src/commands/new.rs:165-166 | The new module list is sorted. As a multiset it equals the `mod` names plus the new name, so nothing is deduplicated. It is exactly one longer. It contains exactly the new name and the declared modules. |
| NewCommand.NewExportList | azure-functions-sdk/src/commands/new.rs:168-169 | The new export list is sorted. As a multiset it equals the printed `export!` arguments plus `name::name`. It contains exactly `name::name` and the exported paths. |
| StringOrder.LessOrEqualTransitive | azure-functions-sdk/src/commands/new.rs:166 | The lexicographic order `sort` uses on `String` is transitive. Together with reflexivity, totality and antisymmetry, this makes it a total order. |
| StringOrder.SortStrings | azure-functions-sdk/src/commands/new.rs:165-169 | The sorted list is ordered and is a permutation of its input. |
| StringOrder.SortedPermutationUnique | azure-functions-sdk/src/commands/new.rs:165-169 | Two sorted permutations of the same list are equal. Any correct sort, including the stable `Vec::sort`, therefore gives the list `SortStrings` gives. |
| QueueTriggerBinding.MapSerializer.SerializeEntry | azure-functions-shared/src/codegen/bindings/queue_trigger.rs:20-26 | Each call appends exactly one key/value entry after those already written. |
| QueueTriggerBinding.MapSerializer.End | azure-functions-shared/src/codegen/bindings/queue_trigger.rs:29 | Ending the map gives back every entry written, in the order written. |
| QueueTriggerBinding.Serialize | azure-functions-shared/src/codegen/bindings/queue_trigger.rs:13-31 | The entries are `name`, `type`=`queueTrigger`, `direction`=`in` and `queueName`, in that order, with values copied from the fields. A last `connection` entry carrying the inner value appears exactly when the connection is set. There are 4 entries without it and 5 with it. The keys are pairwise distinct. Reading the entries back gives the binding. |
| QueueTriggerBinding.EntriesReadBack | azure-functions-shared/src/codegen/bindings/queue_trigger.rs:20-27 | Looking up the written entries gives back every field. The `connection` lookup is empty exactly when the connection is unset. |
| QueueTriggerBinding.EntriesDistinct | azure-functions-shared/src/codegen/bindings/queue_trigger.rs:20-27 | No key is written twice. |
| QueueTriggerBinding.LookupFinds | azure-functions-shared/src/codegen/bindings/queue_trigger.rs:20-27 | A lookup of the written entries fails exactly when no entry has the key. Otherwise it returns a value that was written under that key. |
| RpcMessages.StateOf | azure-functions-shared/cache/azure_functions_rpc_messages.rs:1-13 | An optional nullable field is in exactly one of three states: absent, present with its `oneof` unset, or present with a value. |
| RpcMessages.NullableStatesRoundTrip | azure-functions-shared/cache/azure_functions_rpc_messages.rs:2-13 | The three states and the field values correspond one-to-one. |
| RpcMessages.AsOption | azure-functions-shared/cache/azure_functions_rpc_messages.rs:519-523 | Reading an optional nullable field such as a cookie's `domain` as a plain optional value yields a value exactly when the field is in the set state, and then yields that value. |
| RpcMessages.CollapsingNullableLosesUnset | azure-functions-shared/cache/azure_functions_rpc_messages.rs:519-523 | Two fields read the same as plain optional values if and only if they are equal or neither holds a value. Absent and present-but-unset are the only states that reading merges, so an absent field never reads as `Value("")`. |
| RpcMessages.AbsentAndUnsetDiffer | azure-functions-shared/cache/azure_functions_rpc_messages.rs:2-5 | An absent field and a present field with its `oneof` unset read the same as plain optional values, yet they are in different states. |
| RpcMessages.StatusFromI32 | azure-functions-shared/cache/azure_functions_rpc_messages.rs:205-209 | Decodes Failure=0, Success=1 and Cancelled=2. Every other code is rejected. |
| RpcMessages.FileChangeTypeFromI32 | azure-functions-shared/cache/azure_functions_rpc_messages.rs:242-249 | Decodes Unknown=0, Created=1, Deleted=2, Changed=4, Renamed=8 and All=15. Every other code is rejected. |
| RpcMessages.FileChangeType.Flags | azure-functions-shared/cache/azure_functions_rpc_messages.rs:242-249 | A change type's bit pattern has the value of its code. |
| RpcMessages.FileChangeFlags | azure-functions-shared/cache/azure_functions_rpc_messages.rs:242-249 | Created, Deleted, Changed and Renamed are single bits and pairwise disjoint. Unknown is no bit. All is the bitwise OR of the four. |
| RpcMessages.ActionFromI32 | azure-functions-shared/cache/azure_functions_rpc_messages.rs:266-269 | Decodes Restart=0 and Reload=1. Every other code is rejected. |
| RpcMessages.DirectionFromI32 | azure-functions-shared/cache/azure_functions_rpc_messages.rs:438-442 | Decodes In=0, Out=1 and Inout=2. Every other code is rejected. |
| RpcMessages.DataTypeFromI32 | azure-functions-shared/cache/azure_functions_rpc_messages.rs:446-451 | Decodes Undefined=0, String=1, Binary=2 and Stream=3. Every other code is rejected. |
| RpcMessages.LevelFromI32 | azure-functions-shared/cache/azure_functions_rpc_messages.rs:486-494 | Decodes Trace=0 through None=6. Every other code is rejected. |
| RpcMessages.LevelOrderMatchesCodes | azure-functions-shared/cache/azure_functions_rpc_messages.rs:484-494 | Levels are ordered by discriminant, as the derived `Ord` does, and for `Level` this is declaration order: one level is declared before another if and only if its code is smaller. |
| RpcMessages.SameSiteFromI32 | azure-functions-shared/cache/azure_functions_rpc_messages.rs:546-550 | Decodes None=0, Lax=1 and Strict=2. Every other code is rejected. |
| RpcMessages.CodeTablesRoundTrip | azure-functions-shared/cache/azure_functions_rpc_messages.rs:203-550 | Decoding any enumeration's code gives the enumeration back, so each code table is one-to-one. |
| RpcMessages.PopulatedTags | azure-functions-shared/cache/azure_functions_rpc_messages.rs:387-410 | A `TypedData` populates at most one of its seven fields, and none exactly when it holds no value. |
| RpcMessages.DataTag | azure-functions-shared/cache/azure_functions_rpc_messages.rs:388-408 | Each kind of `TypedData` value is written under one of the seven tags the `oneof` declares. |
| RpcMessages.DataTagDeterminesKind | azure-functions-shared/cache/azure_functions_rpc_messages.rs:394-408 | Two data values share a tag if and only if they are the same variant. |
| RpcMessages.HttpDepth | azure-functions-shared/cache/azure_functions_rpc_messages.rs:554-577 | HTTP payloads nest inside typed data. Every `body` and `raw_body` is strictly less deep than the payload holding it, and a value that is not HTTP has depth 0. |
| RpcMessages.ContentTag | azure-functions-shared/cache/azure_functions_rpc_messages.rs:85-143 | Each content variant's tag is the entry at its position in the declared tag list. |
| RpcMessages.ContentTagsDistinct | azure-functions-shared/cache/azure_functions_rpc_messages.rs:85 | The content tag list has 17 entries, all pairwise distinct. |
| RpcMessages.ContentTagDeterminesKind | azure-functions-shared/cache/azure_functions_rpc_messages.rs:92-143 | Two contents share a tag if and only if they are the same variant. |

## Left out

- The gRPC client (`function_rpc_client`, azure-functions-shared/cache/azure_functions_rpc_messages.rs:578-666) is not modelled: it is asynchronous network I/O.
- The protobuf byte encoding is not modelled: prost's derive macros generate it and their code is not part of this model. Only the datatypes, field tags and enumeration code tables are modelled.
- Floating point: `double` fields are the `Float64` bit pattern. Equality on them is bitwise and does not follow IEEE 754 comparison (for NaN and for signed zero).
- `prost_types::Timestamp` and `Duration` are plain records of seconds and nanoseconds. Their normalisation rules are not modelled.
- All HashMap fields (those of `RpcHttp`, `WorkerInitRequest`, `WorkerInitResponse`, `RpcFunctionMetadata`, `InvocationRequest` and `FunctionEnvironmentReloadRequest`) are Dafny maps, so their iteration order plays no part.
- NewCommand.GetPathForFunction: the filesystem probes `Path::is_dir` and `Path::exists` are answered by a `Disk` value instead of a live filesystem.
- `create_function` (azure-functions-sdk/src/commands/new.rs:65-108) is not modelled: it is template rendering, printing and file deletion around the two modelled operations.
- NewCommand.ExportFunction: opening, reading and parsing `src/functions/mod.rs` (new.rs:133-140) and rendering the new file from a template (new.rs:171-180) are left out. The parsed items are the input, so those three I/O errors do not appear.
- NewCommand.ExportFunction: parsing a macro's tokens into paths is syn's job. An item carries either its parsed path list or a marker that the tokens did not parse.
- `last_segment_in_path` is not part of this model. A macro item carries the identifier of its path's last segment.
- NewCommand.Message: the parse error for `export!` omits the parser's own error text, which the source appends after a colon.
- StringOrder.SortStrings: it is an insertion sort rather than the standard library's merge sort. `SortedPermutationUnique` shows the two give the same list, because the order is total.
- The command-line interface (argument parsing, colours, progress output, subcommand dispatch) is not modelled.
- QueueTriggerBinding.Serialize: errors raised by the serializer are not modelled; only the success path is. The JSON text itself is not modelled either; the output is the sequence of entries in the order they are written.
- Nullable wrappers keep three states (absent, present but unset, present with a value), because the code has all three.
- Enumeration-typed fields of messages hold raw `Int32` codes, as the generated structs do. The `...FromI32` decoders reject codes outside each table.
