# prisma-generator-nestjs-dto: the `generate` entry point

This project models the orchestration layer of the Prisma generator that
emits NestJS DTO and entity classes (`src/index.ts`). The generator host
hands over a loosely typed configuration block; `generate`:

1. coerces the textual toggles to booleans with `stringToBoolean`
   (exactly `"true"` and `"false"` are recognised, anything else or a
   missing value takes the toggle's own default);
2. gives each textual option its documented default (`Connect`, `Create`,
   `Update`, `Dto`, empty prefixes and suffixes, `camel`, no formatter
   configuration);
3. rejects an unsupported `fileNamingStyle` with an error that quotes the
   value and lists `'kebab', 'camel', 'pascal', 'snake'`, before anything is
   synthesised;
4. passes the normalised options to the DTO synthesiser (`run`);
5. when `reExport` is on, builds one barrel file `index.ts` per directory
   that received a synthesised file, whose content is a newline followed by
   `export * from './<module>';` for each file of that directory, in order
   (so every barrel starts with an empty line);
6. chooses where the formatter configuration is resolved from: the
   `prettierConfig` path when it is non-empty, the working directory
   otherwise, nothing when `usePrettier` is off;
7. writes the synthesised files followed by the barrels, in the order the
   barrels' directories were first met.

Modules:

- `Wrappers` (`wrappers.dfy`): `Option` and `Result`.
- `Paths` (`paths.dfy`): `dirname`, `basename(p, ext)` and `join(dir, name)`
  over `/`-separated paths, with their inverse laws.
- `Config` (`config.dfy`): `StringToBoolean`, the naming styles, the error
  message and `Normalize`, which turns a raw configuration into typed options
  or the configuration error.
- `ReExport` (`reexport.dfy`): the per-directory barrel a directory should
  receive (`Barrel`, defined from the files alone), the loop that builds the
  collection of barrels in place (`CollectIndexes`, proved to build exactly
  those barrels), and the write list (`WriteList`).
- `Generate` (`generate.dfy`): `Generate`, with the synthesiser as a function
  parameter, and the formatter configuration choice.

The synthesiser `run` is a parameter of `Generate`. An invalid naming style
gives the same failure whatever `run` is, which is how the model states that
validation happens before synthesis.

## Model

| member | source | states |
|---|---|---|
| Config.StringToBoolean | src/index.ts:17-26 | `"true"` gives true and `"false"` gives false; any other result is the default, and the result differs from the default only when the input spells it |
| Config.ParseNamingStyle | src/index.ts:70-72 | a name is accepted exactly when it is one of the four supported styles, and the accepted style carries that name |
| Config.StyleNameRoundTrip | src/index.ts:70-72 | every style's name is supported and parses back to that style |
| Config.QuotedConcat | src/index.ts:76-78 | quoting two non-empty lists in turn is quoting each and separating them with `, `: the separator sits between names only, never at either end |
| Config.SupportedStylesQuoted | src/index.ts:76-78 | the supported styles are listed as `'kebab', 'camel', 'pascal', 'snake'` |
| Config.InvalidStyleMessageText | src/index.ts:74-80 | the error text quotes the rejected value and then lists the four styles |
| Config.Normalize | src/index.ts:32-80 | the configuration is accepted exactly when the (defaulted) naming style is supported; on rejection the error is the naming-style message for that value; on acceptance the typed style is the configured one |
| Config.NormalizeStringOptions | src/index.ts:32-41 | every textual option of an accepted configuration is the configured text when set and its documented default otherwise |
| Config.NormalizeToggles | src/index.ts:43-68 | every toggle of an accepted configuration is true for `"true"`, false for `"false"`, and its own default for any other text or when unset |
| Config.NormalizeEmpty | src/index.ts:32-68 | an empty configuration yields exactly the documented defaults |
| Config.NormalizeRejects | src/index.ts:70-80 | a configuration setting only the naming style is rejected exactly when the style is not one of the four, with the literal error message |
| Paths.LastSlash | src/index.ts:102 | reports the position of the last `/`, or its absence exactly when the path has none |
| Paths.Dirname | src/index.ts:102 | a directory name is never empty, and is `.` for a path without `/` |
| Paths.LastComponent | src/index.ts:109 | the last component holds no `/` and is a suffix of the path |
| Paths.Basename | src/index.ts:109 | the module name holds no `/`; it is the last component with `ext` removed when the component properly ends in `ext`, the whole last component otherwise (so `b.js` stays `b.js` and a bare `.ts` component stays `.ts`), and empty for a path that is exactly a non-empty `ext` |
| Paths.Join | src/index.ts:106 | the joined path ends with the joined name |
| Paths.DirnameLastComponentSplit | src/index.ts:102 | a path with a separator after its first character is its directory, `/`, and its last component |
| Paths.NoSlashSuffix | src/index.ts:102 | a `/` followed only by non-separators is the last one |
| Paths.JoinInverse | src/index.ts:106 | `dirname` and the last component of `join(dir, name)` recover `dir` and `name` |
| Paths.BasenameOfJoin | src/index.ts:106-109 | `basename(join(dir, stem + ext), ext)` is `stem` |
| ReExport.ExportLineNamesModule | src/index.ts:109 | the export line of `<dir>/<stem>.ts` is `export * from './<stem>';` |
| ReExport.DirsMembers | src/index.ts:101-102 | a directory gets a barrel exactly when some synthesised file sits in it |
| ReExport.DirsInOrderMembers | src/index.ts:101-105 | the first-met order lists every directory met, and only those, each exactly once |
| ReExport.DirsInOrderCount | src/index.ts:101-105 | the first-met order has one entry per directory met |
| ReExport.DirsInOrderPrefix | src/index.ts:101-105 | the directories met among the first files keep their order as more files are met: later files only append directories |
| ReExport.FilesInMembers | src/index.ts:101-110 | a barrel re-exports exactly the files of its directory |
| ReExport.BarrelContentShape | src/index.ts:107-110 | a directory's barrel lists some file exactly when the directory received one, and its content then starts with a newline |
| ReExport.FilesInSnoc | src/index.ts:101-110 | one more file is appended to its own directory's files only |
| ReExport.BarrelContentAppend | src/index.ts:107-110 | the content of consecutive runs of files is the concatenation of their contents |
| ReExport.BarrelSnocOther | src/index.ts:104-111 | one more file leaves the other directories' barrels unchanged |
| ReExport.BarrelSnocSame | src/index.ts:104-111 | one more file keeps its directory's barrel path and appends a newline and its export line to the earlier content (empty for a new directory) |
| ReExport.CollectAllKeys | src/index.ts:97-112 | the collection has one entry per directory met, and its keys are those directories in the order their first file was met |
| ReExport.CollectAllEntry | src/index.ts:101-111 | the collected entry of each directory met is that directory's barrel |
| ReExport.CollectAllBarrels | src/index.ts:97-112 | after all files the collection maps exactly the directories met to their barrels, keyed in first-met order |
| ReExport.CollectIndexes | src/index.ts:97-112 | the loop leaves one entry per directory met, each equal to the directory's barrel, and its key order is the order in which the directories were first met |
| ReExport.DistinctCardinality | src/index.ts:125 | a repeat-free list has as many distinct elements as entries |
| ReExport.WriteList | src/index.ts:123-125 | the synthesised files come first, unchanged and in order; with re-export on they are followed by exactly the barrels of the directories met, one each, in first-met order; with re-export off by nothing |
| ReExport.WriteListOnlyBarrels | src/index.ts:123-125 | with re-export on, every write after the synthesised files is the barrel of a directory met |
| ReExport.WriteListAllBarrels | src/index.ts:123-125 | with re-export on, there is one extra write per directory met and every such directory's barrel is among them |
| Generate.FormatterConfigSource | src/index.ts:115-121 | no configuration is resolved exactly when formatting is off; the working directory exactly when formatting is on and `prettierConfig` is empty; otherwise the `prettierConfig` path |
| Generate.Generate | src/index.ts:28-125 | an unsupported naming style fails with its configuration error whatever the synthesiser would do; otherwise the synthesiser receives the normalised options and the plan writes its output per `WriteList`, formatted from the source `FormatterConfigSource` selects |

## Left out

- Formatting itself (`prettier.resolveConfig` and `prettier.format`): the model records only where the configuration is resolved from; the formatter is a foreign library.
- Directory creation (`makeDir`) and `fs.writeFile`: the model produces the ordered list of files to write; file-system effects and their failures are not modelled.
- `Promise.all`: the writes run concurrently in the source; the model keeps only the list they are started from.
- The DTO synthesiser `run` and the Prisma schema (`dmmf`) it reads: `run` is a parameter of `Generate`, and the schema is whatever that function closes over; the synthesiser is not part of this model.
- `parseEnvValue` on the output setting: environment lookup is I/O; `Generate` receives the resolved output directory.
- `generatorHandler` and the manifest (`onManifest`): host registration, with no logic of its own.
- Config.StringToBoolean: the `defaultValue = false` parameter default is not modelled; every call site in the entry point passes a default explicitly.
- Config.Lookup: a configuration value that is not a string (the host can pass string lists) is not modelled; settings are text.
- Paths.Dirname: trailing separators, which Node's `dirname` skips, are not modelled, and neither is the POSIX double-slash root (Node gives `//` for `//x`, the model `/`); the synthesiser writes under an absolute output directory, so its file names neither end in `/` nor start with `//`.
- Paths.Join: Node's normalisation of `.`, `..` and repeated separators inside the directory is not modelled, nor are Windows separators; `join` is therefore not injective here or in Node (`a` and `a/` give the same barrel path), and the model claims no uniqueness of barrel paths.
- Paths.Basename: trailing separators, which Node's `basename` skips, are not modelled.
- ReExport.Values: JavaScript lists integer-like record keys first in numeric order; the model lists keys in insertion order, which is what JavaScript does for the directory names the synthesiser produces. The collection is a plain object, so a directory path equal to `__proto__` would replace its prototype instead of adding an entry and lose that barrel; the model writes every barrel, since the synthesiser's directory paths are absolute and never equal `__proto__`.
