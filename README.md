# 3DConvert export core in Dafny

3DConvert reads a 3D scene through one of four loaders and writes it into a
`.stu` file: a container of named chunks, each holding one part of the scene.
The loaders are Assimp, the FBX SDK, tinyobjloader and TinyXML (a Stingray-style
XML model list). This project models the writer and the four scene adapters,
and proves properties of that model.

The `.stu` container:

- A 10-byte file header. It holds the magic "STU", the version "0.1" and the
  big-endian size of everything after the header.
- A run of chunks. Each chunk starts with a 32-byte header: the leader `$$`, a
  19-byte name, a zero byte, the big-endian data size, and the name hash. The
  data bytes follow the header.
- Every adapter is compiled with `STU_EXPORT_SEQUENTIAL` set to 1. Each chunk
  is therefore appended to the file as soon as it is complete, and the size in
  the file header grows with it. The buffered ("bulk") mode writes the same
  bytes, and `StuFormat.AppendsMatchBulk` relates the two modes.
- The Assimp and FBX adapters remove the `.stu` file at the start of every
  export, so the file holds only that export's chunks. The OBJ and XML
  adapters do not remove it, so their chunks go after those of an earlier run.

Modules, one per part of the program:

| module | models |
|---|---|
| `Wrappers` | `Option`, and sequence lemmas the proofs share |
| `CText` | C strings: `c_str()`, `strncpy`, `strlen`, `tolower`, `atoi`, `std::to_string` |
| `StuText` | the name hash, `CopyString`, `RemoveFoldersFromPaths`, `EndsWithIgnoreCase` |
| `StuFormat` | the file and chunk headers, the chunk buffer and `CFileExportSTUFormat` (the exporter class) |
| `ModelData` | `VertexBoneData` (the four strongest bone influences of a vertex) and the texture-name rewrite from `.tif`/`.psd` to `.png` |
| `SceneExport` | the payload values the adapters share: the bounding box, the bone table and its "Bones" chunk, the packed bone ids, texture descriptors, the material block and the animation chunks |
| `AssimpScene`, `AssimpExport`, `AssimpProperties` | `C3DModelAssimp` |
| `FbxScene`, `FbxExport`, `FbxProperties` | `C3DModelFBX` |
| `ObjScene`, `ObjExport`, `ObjProperties` | `C3DModelOBJ` |
| `XmlScene`, `XmlExport`, `XmlProperties` | `C3DModelXML` |

Each adapter has three modules:

- A scene module. It describes the loaded scene as a datatype and the export
  as functions over an adapter state: the chunks written, the bone table, and
  the counters the source keeps in members and statics.
- An export module. It holds the adapter class. Its methods update the
  class's fields, and each `ensures` ties the new state to the scene
  module's functions.
- A properties module. It holds the lemmas: the written file stays
  well-formed, the chunks come in the source's order, the error paths are
  covered, and the counters and tables keep their invariants.

The parsing done by third-party libraries is not modelled. Each loader's
output is a parameter: an abstract scene value (`None` when loading fails).

## Model

| member | source | states |
|---|---|---|
| CText.CView | src/CFileExportSTUFormat.cpp:106-111 | the text `c_str()` exposes is the prefix of the string before its first NUL, and the character after it, if any, is that NUL |
| CText.Lower | src/CFileExportSTUFormat.cpp:18-19 | `::tolower` in the "C" locale keeps the length and maps each character through the ASCII lower-casing |
| CText.Find | src/C3DModelDataStructures.h:243 | `std::string::find` returns the first position where the pattern occurs, and None only when it occurs nowhere |
| CText.FindLast | src/CFileExportSTUFormat.cpp:51 | `find_last_of` for one character: the returned index holds that character and none follows it; None exactly when the character is absent |
| CText.DecimalText | src/C3DModelXML.cpp:314 | `std::to_string` of an unsigned counter is a non-empty run of decimal digits |
| CText.DecimalTextDenotes | src/C3DModelXML.cpp:314 | the digits `std::to_string` writes denote the counter's value |
| CText.DecimalTextInjective | src/C3DModelXML.cpp:412 | distinct counters give distinct decimal texts, so counter-numbered chunk names ("Vx:", "Model:") never repeat |
| CText.DigitRun | src/C3DModelXML.cpp:339 | the leading run `atoi` reads is all digits and is followed by a non-digit or the end |
| CText.SkipSpace | src/C3DModelXML.cpp:339 | the white space `atoi` skips before its number |
| CText.AtoiOfDecimalText | src/C3DModelAssimp.cpp:881-882 | `atoi` reads back the value `std::to_string` wrote |
| StuText.SignedChar | src/CFileExportSTUFormat.cpp:108-111 | `int c = *str` for a plain signed `char` lies in -128..127 and agrees with the byte modulo 256 |
| StuText.NameHashOfEmpty | src/CFileExportSTUFormat.cpp:107 | the hash of the empty name is the seed 5381 |
| StuText.NameHashStep | src/CFileExportSTUFormat.cpp:110-111 | each further character steps the hash to `h * 34 + c` modulo 2^32 |
| StuText.NameHashStopsAtNul | src/CFileExportSTUFormat.cpp:110 | nothing after the first NUL of the name affects the hash |
| StuText.MakeHashFromName | src/CFileExportSTUFormat.cpp:103-118 | the loop over a 64-bit `unsigned long`, truncated to 32 bits on return, yields the 32-bit name hash of the text up to the first NUL |
| StuText.CopyString | src/CFileExportSTUFormat.cpp:28-46 | appends at most 255 characters of the C string and then a NUL to the target, and returns the number of bytes appended |
| StuText.CopiedTextRoundTrip | src/CFileExportSTUFormat.cpp:28-46 | a copied string takes 1 to 256 bytes, and reading it back as a C string gives the text capped at 255 characters; a text of at most 255 characters comes back unchanged |
| StuText.CViewPrefixAgrees | src/CFileExportSTUFormat.cpp:32 | before any NUL the C view and the text agree |
| StuText.CharsOf | src/CFileExportSTUFormat.cpp:34 | the characters stored bytes decode back to, one per byte |
| StuText.RemoveFoldersFromPaths | src/CFileExportSTUFormat.cpp:48-85 | the result is a tail of the path: after the last '\\' if there is one, else after the last '/', else the whole path; it holds no '\\', and no '/' when the path had no '\\' |
| StuText.EndsWithIgnoreCase | src/CFileExportSTUFormat.cpp:16-26 | false when the ending is longer; otherwise true exactly when the lower-cased text ends with the lower-cased ending |
| StuText.SuffixSplit | src/CFileExportSTUFormat.cpp:20-21 | "ends with" holds exactly when the text is at least as long and its last characters equal the ending |
| StuText.EndsWithEmpty | src/CFileExportSTUFormat.cpp:20-21 | every text ends with the empty ending |
| StuFormat.BigEndianRoundTrip | src/CFileExportSTUFormat.cpp:165 | reading the four size bytes as the importer does gives back the stored 32-bit value |
| StuFormat.BigEndianDecodeRoundTrip | src/CFileExportSTUFormat.cpp:165 | every four bytes are the big-endian image of the value they decode to |
| StuFormat.StoreSizeInfo | src/CFileExportSTUFormat.cpp:192-198 | the remainder arithmetic on `uUsed`, with each store truncated to `unsigned char`, leaves the four big-endian bytes of the size |
| StuFormat.NameField | src/CFileExportSTUFormat.cpp:188 | `strncpy(Name, s, 19)` leaves exactly 19 characters in the name field |
| StuFormat.NameFieldTerminated | src/CFileExportSTUFormat.h:32-33 | the name field read as a C string, with the `Zero` byte behind it, is the name truncated to 19 characters, and is the whole name when it fits |
| StuFormat.ChunkHeaderFields | src/CFileExportSTUFormat.h:29-42 | the 32 header bytes read back as "$$", the padded name, a zero byte, the big-endian size, two zero padding bytes and the little-endian hash of the truncated name |
| StuFormat.ChunkImage | src/CFileExportSTUFormat.cpp:302-311 | one chunk occupies its 32 header bytes plus its data bytes |
| StuFormat.FileHeaderImage | src/CFileExportSTUFormat.h:43-57 | the file header is 10 bytes |
| StuFormat.OverwriteFront | src/CFileExportSTUFormat.cpp:225 | writing a header at offset 0 replaces the first bytes and keeps the rest |
| StuFormat.OverwriteAtEnd | src/CFileExportSTUFormat.cpp:232-243 | writing at the end offset appends |
| StuFormat.AppendImage | src/CFileExportSTUFormat.cpp:142-243 | appending fails exactly when an existing file fails the header, magic, version or size checks |
| StuFormat.AppendedFile | src/CFileExportSTUFormat.cpp:120-249 | `AppendChunkToFile` writes nothing exactly when the data is empty or an existing file fails the checks |
| StuFormat.AppendWrites | src/CFileExportSTUFormat.cpp:164-243 | the header rewrite at offset 0 and the chunk write at the offset `ftell` reported produce the appended image |
| StuFormat.AppendToMissing | src/CFileExportSTUFormat.cpp:178-182 | appending to a missing file gives the file header with the chunk length and the one chunk, a well-formed container |
| StuFormat.AppendExistingEquation | src/CFileExportSTUFormat.cpp:164-243 | appending to a well-formed file rewrites its header with the grown size and adds the chunk after the old chunks |
| StuFormat.AppendToExisting | src/CFileExportSTUFormat.cpp:164-243 | the appended file keeps magic, version and every old chunk byte, ends with the new chunk, and stores its length minus 10 modulo 2^32 |
| StuFormat.AppendKeepsWellFormed | src/CFileExportSTUFormat.cpp:202-211 | a well-formed container stays well-formed and accepted after an append while it fits in 32 bits |
| StuFormat.HeaderOverTail | src/CFileExportSTUFormat.cpp:278-297 | a file header carrying the length of what follows is well-formed |
| StuFormat.BulkWellFormed | src/CFileExportSTUFormat.cpp:263-313 | what `ExportFile` writes is well-formed and stores the total chunk length |
| StuFormat.AppendsMatchBulk | src/CFileExportSTUFormat.cpp:120-319 | appending chunks one by one to a missing file gives exactly the file `ExportFile` writes for the same chunks, below 4 GiB |
| StuFormat.BulkPlusOne | src/CFileExportSTUFormat.cpp:120-249 | appending one chunk to a bulk image is the bulk image with that chunk added |
| StuFormat.BulkSplit | src/CFileExportSTUFormat.cpp:278-313 | below 4 GiB a bulk image is the file header with the plain total length followed by the chunks |
| StuFormat.FileHeader.Image | src/CFileExportSTUFormat.h:43-47 | the struct `fwrite` emits is 10 bytes |
| StuFormat.FileHeader.constructor | src/CFileExportSTUFormat.h:48-56 | the constructor sets magic "STU" and version "0.1" |
| StuFormat.FileHeader.Load | src/CFileExportSTUFormat.cpp:146 | `fread` of the struct holds the first 10 bytes of the file |
| StuFormat.ChunkHeader.Image | src/CFileExportSTUFormat.h:29-35 | the struct `fwrite` emits is 32 bytes |
| StuFormat.ChunkHeader.constructor | src/CFileExportSTUFormat.h:36-41 | a fresh header is "$$" followed by 30 zero bytes |
| StuFormat.ChunkHeader.CopyName | src/CFileExportSTUFormat.cpp:188 | `strncpy` leaves the 19-character name field |
| StuFormat.ChunkHeader.Fill | src/CFileExportSTUFormat.cpp:329-340 | after name, hash and size are filled in, the header bytes are the chunk header image for that name and length |
| StuFormat.StuChunk.constructor | src/CFileExportSTUFormat.h:64-67 | a new chunk has a fresh header and no data |
| StuFormat.StuChunk.Resized | src/CFileExportSTUFormat.h:75 | `resize` keeps a prefix and pads with zero bytes to exactly the new length |
| StuFormat.StuChunk.AllocateForData | src/CFileExportSTUFormat.h:73-86 | the data is resized to `n` bytes and the allocation records `n`; the call returns true |
| StuFormat.StuChunk.SetData | src/CFileExportSTUFormat.h:87-92 | the data becomes the `n` input bytes and `GetDataSize()` reports `n` |
| StuFormat.StuExporter.constructor | src/CFileExportSTUFormat.cpp:87-91 | a new exporter buffers no chunks |
| StuFormat.StuExporter.NewChunk | src/CFileExportSTUFormat.cpp:325-343 | the chunk `WriteChunk` builds writes the chunk image of its name and data |
| StuFormat.StuExporter.NewHeaderOnlyChunk | src/CFileExportSTUFormat.cpp:185-199 | the chunk `AppendChunkToFile` builds carries the header image for its name and length |
| StuFormat.StuExporter.WriteChunk | src/CFileExportSTUFormat.cpp:321-350 | always succeeds, keeps the buffered chunks and adds the new chunk's image at the end |
| StuFormat.StuExporter.TotalSize | src/CFileExportSTUFormat.cpp:263-272 | the size loop sums header and data sizes of every chunk modulo 2^32 |
| StuFormat.StuExporter.Serialize | src/CFileExportSTUFormat.cpp:299-313 | the write loop emits every chunk's header and data in buffer order |
| StuFormat.StuExporter.ExportFile | src/CFileExportSTUFormat.cpp:251-319 | succeeds exactly when the 32-bit total size is non-zero and the file can be opened, and then the file holds the header and every buffered chunk; otherwise no file changes |
| StuFormat.StuExporter.ReadExisting | src/CFileExportSTUFormat.cpp:142-176 | an existing file is accepted exactly when its header reads fully with magic, version and a stored size equal to the `ftell` length minus 10 |
| StuFormat.StuExporter.OpenForAppend | src/CFileExportSTUFormat.cpp:142-182 | a missing file starts from size 0 at offset 10; an accepted one from its stored size at its length |
| StuFormat.StuExporter.AppendChunkToFile | src/CFileExportSTUFormat.cpp:120-249 | returns true exactly when the data is non-empty, an existing file passes the checks and the file opens, and then the file becomes the appended image; otherwise no file changes |
| StuFormat.StuExporter.WriteAppended | src/CFileExportSTUFormat.cpp:213-245 | the header is rewritten at offset 0 and the chunk written at the old end |
| ModelData.VertexDataTypeCodeInjective | src/C3DModelDataStructures.h:112-119 | distinct vertex layouts are written with distinct codes |
| ModelData.TextureTypeCodeInjective | src/C3DModelDataStructures.h:136-154 | distinct texture types are written with distinct codes |
| ModelData.Seeded | src/C3DModelDataStructures.h:186-192 | a reset list holds four zero-weight influences on bone 0 |
| ModelData.InsertionPoint | src/C3DModelDataStructures.h:199-209 | the new influence goes before the first strictly lighter entry: every earlier entry is at least as heavy |
| ModelData.InsertAddsOne | src/C3DModelDataStructures.h:194-214 | inserting adds exactly the new influence at its insertion point and keeps every other entry in order |
| ModelData.InsertKeepsOrder | src/C3DModelDataStructures.h:194-214 | a list ordered heaviest first stays ordered heaviest first |
| ModelData.InsertAfterEqualWeights | src/C3DModelDataStructures.h:202 | among equal weights the newcomer goes after the influences already present |
| ModelData.Accumulate | src/C3DModelDataStructures.h:186-214 | after `n` additions to a reset list it holds `n + 4` entries |
| ModelData.AccumulateSnoc | src/C3DModelDataStructures.h:194-214 | one more addition is one more ordered insertion |
| ModelData.AccumulateSorted | src/C3DModelDataStructures.h:194-214 | the accumulated list is always ordered heaviest first |
| ModelData.AccumulatePermutation | src/C3DModelDataStructures.h:186-214 | the accumulated list holds exactly the four seed entries and the contributions |
| ModelData.PositiveWeightsKeepSeedsLast | src/C3DModelDataStructures.h:202 | with positive weights the four seed entries stay at the tail |
| ModelData.PositiveWeightsLead | src/C3DModelDataStructures.h:194-214 | with positive weights the leading entries are the contributions, heaviest first |
| ModelData.VertexBoneData.constructor | src/C3DModelDataStructures.h:180-184 | a new record holds the reset list |
| ModelData.VertexBoneData.Reset | src/C3DModelDataStructures.h:186-192 | the list becomes the four seed entries |
| ModelData.VertexBoneData.AddBoneData | src/C3DModelDataStructures.h:194-214 | the list becomes the ordered insertion of the new influence |
| ModelData.ExtensionPosition | src/C3DModelDataStructures.h:240-251 | the splice point is the first ".tif" of the lower-cased name if any, else its first ".psd"; None exactly when neither occurs |
| ModelData.ReplaceUnrecognizedInternalTextureFormats | src/C3DModelDataStructures.h:238-257 | keeps the length; reports a change exactly when ".tif" or ".psd" occurs in any case, and leaves the name alone otherwise |
| ModelData.RewriteSplicesPng | src/C3DModelDataStructures.h:243-255 | a rewrite replaces exactly one four-character window, which held ".tif" or ".psd" in some case, by ".png" and keeps the rest |
| ModelData.RewriteAtFirstTif | src/C3DModelDataStructures.h:243-248 | the first ".tif" in any case is the window replaced |
| ModelData.TifReplacedCaseKept | src/C3DModelDataStructures.h:240-248 | the rest of the name keeps its case: "photo.TIFF" becomes "photo.pngF" |
| SceneExport.VectorKeyFields | src/C3DModelAssimp.cpp:216-223 | one record per position or scaling key, in order |
| SceneExport.QuatKeyFields | src/C3DModelAssimp.cpp:224-231 | one record per rotation key, in order |
| SceneExport.MeshKeyFields | src/C3DModelAssimp.cpp:252-259 | one record per mesh key, in order |
| SceneExport.ExportAnimations | src/C3DModelAssimp.cpp:192-267 | the "Animations" chunk holds the animation count and then every animation, in order |
| SceneExport.AnimationsFieldsStep | src/C3DModelAssimp.cpp:198-262 | each turn of the animation loop appends exactly that animation's fields |
| SceneExport.WriteAnimation | src/C3DModelAssimp.cpp:200-261 | one animation is written as its name, ticks per second, duration, its channels with their key counts, post- and pre-state and keys, then its mesh channels |
| SceneExport.VxName | src/C3DModelAssimp.cpp:771 | a vertex chunk name is "Vx:" followed by the counter |
| SceneExport.ModelName | src/C3DModelAssimp.cpp:937 | a model chunk name is "Model:" followed by the counter |
| SceneExport.BBName | src/C3DModelAssimp.cpp:621-623 | the box chunk is named after its vertex chunk with "BB" appended |
| SceneExport.VxNameInjective | src/C3DModelAssimp.cpp:771 | two vertex chunk names are equal exactly when their counters are |
| SceneExport.ModelNameInjective | src/C3DModelAssimp.cpp:937 | two model chunk names are equal exactly when their counters are |
| SceneExport.ChunkNamesDistinct | src/C3DModelAssimp.cpp:621-623 | a model, a vertex and a box chunk name never coincide |
| SceneExport.DisplayNameEnds | src/C3DModelAssimp.cpp:637-644 | a node display name ends with "-", the counter and ")" |
| SceneExport.DisplayNameCounterDistinct | src/C3DModelAssimp.cpp:636-644 | display names made with different counter values differ, whatever the node names |
| SceneExport.BoundsStep | src/C3DModelAssimp.cpp:400-405 | each vertex grows the box with `std::min` and `std::max` per axis |
| SceneExport.BoundsContain | src/C3DModelAssimp.cpp:379-405 | the accumulated box holds every vertex position, componentwise |
| SceneExport.BoundsAttained | src/C3DModelAssimp.cpp:381-382 | each bound is its initial `FLT_MAX` (or `-FLT_MAX`) or the coordinate of some vertex, so the box is the tightest one |
| SceneExport.InternKeepsDense | src/C3DModelAssimp.cpp:695-708 | interning a new bone hash at the next index keeps the bone table dense: indices distinct, below the count, and one `BoneInfo` per index |
| SceneExport.EmptyTableDense | src/C3DModelAssimp.cpp:51-69 | the empty bone table is dense |
| SceneExport.KeysFromSorted | src/C3DModelAssimp.cpp:276-285 | `std::map` iteration visits exactly the keys, each once, in ascending order |
| SceneExport.PairFields | src/C3DModelAssimp.cpp:278-284 | two values per visited (hash, index) pair |
| SceneExport.InfoFields | src/C3DModelAssimp.cpp:286-292 | one record per `BoneInfo`, in order |
| SceneExport.ExportBones | src/C3DModelAssimp.cpp:269-301 | the "Bones" chunk holds the pair count, the pairs by ascending hash, the `BoneInfo` count and records |
| SceneExport.PackIdsRecover | src/C3DModelAssimp.cpp:589-592 | both bone ids come back from the packed float while the second is below 256 |
| SceneExport.SkinOf | src/C3DModelAssimp.cpp:583-592 | the skin weights are slots 0..3 of the vertex's sorted influence list |
| SceneExport.SkinOfUntouched | src/C3DModelAssimp.cpp:575-592 | a skinned vertex that got no influence reads back weights 0,0,0,0, not the rigid skin 1,0,0,0 |
| SceneExport.SkinCarriesHeaviest | src/C3DModelAssimp.cpp:583-586 | with positive weights, slot 0 carries the largest weight received |
| SceneExport.SeededLists | src/C3DModelAssimp.cpp:165 | `m_Bones.resize(n)` yields `n` reset influence lists |
| SceneExport.AddInfluence | src/C3DModelAssimp.cpp:718 | only the addressed vertex's list changes, by one ordered insertion |
| SceneExport.InfluenceStep | src/C3DModelAssimp.cpp:714-719 | one `AddBoneData` call extends exactly the addressed vertex's accumulated contributions |
| SceneExport.ModelChunks | src/C3DModelAssimp.cpp:937-943 | the Model chunks among the chunks written, in order |
| SceneExport.ModelChunksAppend | src/C3DModelAssimp.cpp:937-947 | the Model chunks of two runs of writes are those of each run, in order |
| SceneExport.NumberedConcat | src/C3DModelAssimp.cpp:937-947 | model chunks numbered on from `lo` followed by ones numbered on from `lo + n1` are numbered on from `lo` |
| SceneExport.AppendsNothing | src/C3DModelAssimp.cpp:937 | no writes append no Model chunks |
| SceneExport.AppendsCompose | src/C3DModelAssimp.cpp:945-948 | two runs of appends numbered consecutively compose into one |
| SceneExport.AppendsModelChunk | src/C3DModelAssimp.cpp:937-943 | writing one Model chunk under the next counter value appends one numbered Model chunk |
| SceneExport.AppendsVertexChunks | src/C3DModelAssimp.cpp:612-623 | a vertex chunk and its box chunk add no Model chunk |
| SceneExport.VertexChunksAreNotModels | src/C3DModelAssimp.cpp:612-623 | vertex and box chunks are not Model chunks |
| SceneExport.EmbeddedTextureName | src/C3DModelAssimp.cpp:317 | an embedded texture is named "InternalTexture(" + number + ")" |
| SceneExport.EmbeddedTextureNameRoundTrip | src/C3DModelAssimp.cpp:881-882 | the texture number reads back from its name with `atoi` |
| AssimpScene.PushInfo | src/C3DModelAssimp.cpp:704-707 | `m_BoneInfo` grows by exactly one record |
| AssimpScene.AddWeights | src/C3DModelAssimp.cpp:714-719 | adding a bone's weights keeps the number of influence lists |
| AssimpScene.InternBones | src/C3DModelAssimp.cpp:689-720 | interning bones changes only the bone table, the bone count, the `BoneInfo` list and the influence lists |
| AssimpScene.LayoutFor | src/C3DModelAssimp.cpp:734-768 | the layout is Bones exactly when the mesh has normals and the current layout is Bones; Normals when it has normals and UVs otherwise; Textured when it has UVs but no normals; Points when colours decide; and the arrays the chosen layout reads are present |
| AssimpScene.Records | src/C3DModelAssimp.cpp:392-605 | one vertex record per vertex of the mesh |
| AssimpScene.MeshesStep | src/C3DModelAssimp.cpp:665-934 | each turn of the mesh loop applies one mesh to the state and appends that mesh's record to the node payload |
| AssimpScene.ChildrenStep | src/C3DModelAssimp.cpp:945-948 | each turn of the child loop exports one more child subtree |
| AssimpScene.BaseVertices | src/C3DModelAssimp.cpp:153-161 | `m_Entries[i].uBaseVertex` is the vertex count of all earlier meshes |
| AssimpExport.AssimpAdapter.constructor | src/C3DModelAssimp.cpp:51-69 | an empty bone table with count 0, no animations, no UV flip; the bone table is dense |
| AssimpExport.AssimpAdapter.ExportToSTUFormat | src/C3DModelAssimp.cpp:127-190 | the result and the new adapter state are those of the export of the scene (false, with only the resets, when the import fails or there are no meshes) |
| AssimpExport.AssimpAdapter.Restart | src/C3DModelAssimp.cpp:131-138 | the path, flip flag, entries, influence lists and mesh total are reset; name counters and the bone table survive |
| AssimpExport.AssimpAdapter.Finish | src/C3DModelAssimp.cpp:178-183 | the influence lists are dropped, then "Bones" is written when some mesh has bones |
| AssimpExport.AssimpAdapter.Prepare | src/C3DModelAssimp.cpp:150-173 | the state before the tree walk: offsets, influence lists, "Animations" and "Textures" |
| AssimpExport.AssimpAdapter.SetUpOffsets | src/C3DModelAssimp.cpp:150-165 | every mesh's base vertex is recorded, and when some mesh has bones every vertex gets a reset influence list |
| AssimpExport.AssimpAdapter.WriteAnimations | src/C3DModelAssimp.cpp:167-173 | a scene with animations switches to the Bones layout, sets the animation flag and writes "Animations" |
| AssimpExport.AssimpAdapter.WriteTextures | src/C3DModelAssimp.cpp:174 | "Textures" is written and the sub-model counters restart at 0 |
| AssimpExport.AssimpAdapter.CountVertices | src/C3DModelAssimp.cpp:153-161 | the entries are the running vertex totals, the total is the scene's vertex count, and the flag says whether any mesh has bones |
| AssimpExport.AssimpAdapter.ExportTextures | src/C3DModelAssimp.cpp:303-362 | the "Textures" chunk holds the count and, per texture, its storage kind, embedded name, size and pixels (raw when compressed or rgba8888, converted when rgba8880, none otherwise) |
| AssimpExport.AssimpAdapter.ExportSubTree | src/C3DModelAssimp.cpp:628-949 | the node's Model chunk, then each child's subtree in order |
| AssimpExport.AssimpAdapter.ExportNode | src/C3DModelAssimp.cpp:635-943 | the node's name, its mesh records, then its Model chunk |
| AssimpExport.AssimpAdapter.WriteModel | src/C3DModelAssimp.cpp:935-943 | the mesh total advances by the node's mesh count and the Model chunk is written under the next model number |
| AssimpExport.AssimpAdapter.ExportMeshes | src/C3DModelAssimp.cpp:665-934 | the state and the payload after all meshes of the node, in order |
| AssimpExport.AssimpAdapter.ExportChildren | src/C3DModelAssimp.cpp:945-948 | every child subtree, in order |
| AssimpExport.AssimpAdapter.ExportMesh | src/C3DModelAssimp.cpp:667-933 | one mesh: its record in the node payload and its effect on the state |
| AssimpExport.AssimpAdapter.BeginMesh | src/C3DModelAssimp.cpp:670-686 | the mesh's names, animation flag and vertex count, its base vertex, and the mesh name counter advanced |
| AssimpExport.AssimpAdapter.LoadBones | src/C3DModelAssimp.cpp:689-720 | every bone of the mesh is interned and its weights added, in order |
| AssimpExport.AssimpAdapter.ExportVertices | src/C3DModelAssimp.cpp:734-773 | for a mesh with vertices: the layout decided, its tag, and the vertex and box chunks written |
| AssimpExport.AssimpAdapter.ExportTail | src/C3DModelAssimp.cpp:775-933 | the index list and, for a known primitive type, the tag, the two-sided flag, the material block and both texture descriptors |
| AssimpExport.AssimpAdapter.LoadBone | src/C3DModelAssimp.cpp:691-719 | one bone interned, then its weights added |
| AssimpExport.AssimpAdapter.RegisterBone | src/C3DModelAssimp.cpp:691-712 | a known hash keeps its index; a new one gets the next index and a `BoneInfo` holding its offset |
| AssimpExport.AssimpAdapter.AddBoneWeights | src/C3DModelAssimp.cpp:714-719 | each weight goes, in order, into the list of vertex base + `mVertexId` |
| AssimpExport.AssimpAdapter.WriteVertexChunk | src/C3DModelAssimp.cpp:373-626 | appends the vertex chunk holding every vertex's record and the box chunk of all positions |
| AssimpExport.AssimpAdapter.CollectIndices | src/C3DModelAssimp.cpp:775-793 | every index of every face, in order, truncated to 16 bits |
| AssimpProperties.AdvanceRefl | src/C3DModelAssimp.cpp:628-949 | no step advances nothing |
| AssimpProperties.AdvanceTrans | src/C3DModelAssimp.cpp:628-949 | two walks in a row advance by their sums |
| AssimpProperties.InternBoneDense | src/C3DModelAssimp.cpp:691-712 | interning one bone keeps the bone table dense |
| AssimpProperties.InternBonesDense | src/C3DModelAssimp.cpp:689-720 | interning all bones of a mesh keeps the bone table dense |
| AssimpProperties.VertexStateAdvance | src/C3DModelAssimp.cpp:734-773 | a mesh's vertex chunks are appended after the earlier chunks and are not Model chunks |
| AssimpProperties.MeshStateAdvance | src/C3DModelAssimp.cpp:667-933 | a mesh writes no Model chunk and leaves the walk's counters alone |
| AssimpProperties.MeshesAdvance | src/C3DModelAssimp.cpp:665-934 | all meshes of a node write no Model chunk |
| AssimpProperties.CloseNodeAdvance | src/C3DModelAssimp.cpp:935-943 | closing a node adds one Model chunk, numbered next, and counts the node and its meshes |
| AssimpProperties.NodeStepAdvance | src/C3DModelAssimp.cpp:635-943 | a node writes exactly one Model chunk, after its meshes' vertex chunks |
| AssimpProperties.SubTreeAdvance | src/C3DModelAssimp.cpp:628-949 | a subtree writes one Model chunk per node, numbered on from the current model count, and counts every mesh reference |
| AssimpProperties.ChildrenAdvance | src/C3DModelAssimp.cpp:945-948 | the first `k` children write as many Model chunks as they have nodes |
| AssimpProperties.MeshStateDense | src/C3DModelAssimp.cpp:667-933 | one mesh keeps the bone table dense |
| AssimpProperties.MeshesDense | src/C3DModelAssimp.cpp:665-934 | the mesh loop keeps the bone table dense |
| AssimpProperties.SubTreeDense | src/C3DModelAssimp.cpp:628-949 | a whole subtree keeps the bone table dense |
| AssimpProperties.ChildrenDense | src/C3DModelAssimp.cpp:945-948 | the child loop keeps the bone table dense |
| AssimpProperties.AddWeightsAccumulates | src/C3DModelAssimp.cpp:714-719 | after a bone's weights are added, each vertex's list is the ordered accumulation of its earlier contributions followed by that bone's contributions to it |
| AssimpProperties.AddWeightsStep | src/C3DModelAssimp.cpp:718 | the last weight extends the accumulation by one |
| AssimpProperties.AddWeightsSnoc | src/C3DModelAssimp.cpp:714-719 | the weight loop is one influence addition per weight |
| AssimpProperties.SeededListsAreEmptyAccumulations | src/C3DModelAssimp.cpp:165 | right after the resize, every vertex's list is the accumulation of no contributions |
| AssimpProperties.BonesRecordSkin | src/C3DModelAssimp.cpp:575-592 | the skin written for a vertex of a skinned mesh is slots 0..3 of its accumulated influence list |
| AssimpProperties.VertexTotalMonotone | src/C3DModelAssimp.cpp:153-161 | the vertex offsets of the meshes never decrease along the mesh list |
| AssimpProperties.IntendedBaseOwnSlots | src/C3DModelAssimp.cpp:714-717 | read at the referenced mesh, the base vertex puts each of its vertices in a slot of the bone table that no other mesh's vertex takes |
| AssimpProperties.RunningBaseCounterexample | src/C3DModelAssimp.cpp:583-592 | as written, a child node referencing mesh 1 reads mesh 0's base, and a node sharing it after two counted meshes reads past the end |
| AssimpProperties.IndicesAreTruncatedFaces | src/C3DModelAssimp.cpp:777-793 | the index list holds every face index in face order, each truncated to 16 bits |
| AssimpProperties.ExportOutcome | src/C3DModelAssimp.cpp:140-148 | the export fails exactly when the import failed or the scene has no meshes, and then writes nothing |
| AssimpProperties.ExportChunkOrder | src/C3DModelAssimp.cpp:167-183 | a successful export writes "Animations" (when there are animations), "Textures", then the tree with one Model chunk per node numbered from 0 in pre-order, then "Bones" when a mesh has bones |
| AssimpProperties.BeforeTreeOpens | src/C3DModelAssimp.cpp:150-174 | before the walk only the opening chunks are written and the model count is 0 |
| AssimpProperties.AfterTreeCloses | src/C3DModelAssimp.cpp:178-183 | after the walk only the closing chunk is added, and the influence lists are dropped |
| AssimpProperties.ExportKeepsDense | src/C3DModelAssimp.cpp:127-190 | a dense bone table stays dense across a whole export, including the table kept from earlier exports |
| FbxScene.ClusterWeights | src/C3DModelFBX.cpp:1557-1570 | adding a cluster's weights keeps the number of influence lists |
| FbxScene.InternCluster | src/C3DModelFBX.cpp:1519-1570 | interning one cluster changes only the bone table, the bone count, the `BoneInfo` list and the influence lists |
| FbxScene.InternClusters | src/C3DModelFBX.cpp:1518-1571 | interning the clusters of a skin changes only the bone table, the bone count, the `BoneInfo` list and the influence lists |
| FbxScene.InternSkins | src/C3DModelFBX.cpp:1515-1572 | interning every skin changes only the bone table, the bone count, the `BoneInfo` list and the influence lists |
| FbxScene.LoadedBones | src/C3DModelFBX.cpp:1502-1573 | loading a mesh's bones changes only the bone table, the bone count, the `BoneInfo` list and the influence lists |
| FbxScene.LayoutOf | src/C3DModelFBX.cpp:894-927 | the layout is Bones exactly when the mesh has normals and the scene has skeletons; Normals when it has normals and UVs and no skeletons; Textured when it has UVs but no normals; Points when colours decide; Simple otherwise |
| FbxScene.Records | src/C3DModelFBX.cpp:1416-1442 | one record per polygon vertex, in polygon order, each the record of that polygon vertex |
| FbxScene.Positions | src/C3DModelFBX.cpp:1416-1442 | one position per polygon vertex, each read from its control point |
| FbxScene.CornersStep | src/C3DModelFBX.cpp:1416-1442 | one more polygon adds its polygon vertices after the earlier ones |
| FbxScene.RecordsSnoc | src/C3DModelFBX.cpp:1425-1441 | one more polygon vertex adds one record and grows the box by its position |
| FbxScene.FirstMaterial | src/C3DModelFBX.cpp:846-854 | no material exactly when every source material is null; otherwise the first non-null one |
| FbxScene.WithPolygons | src/C3DModelFBX.cpp:823-835 | the count of meshes with polygons is at most the number of meshes looked at |
| FbxScene.MeshesStep | src/C3DModelFBX.cpp:837-1065 | one more index of the mesh loop: a mesh without polygons changes nothing, one with polygons adds its state change and its record |
| FbxExport.FbxAdapter.constructor | src/C3DModelFBX.cpp:274-284 | an empty bone table with count 0, no animations, no skeletons, no UV flip, all counters 0 and nothing written |
| FbxExport.FbxAdapter.ExportToSTUFormat | src/C3DModelFBX.cpp:297-414 | the result and the new adapter state are those of the export of the scene: the `.stu` file is removed first, and a scene that does not load returns false with nothing else changed |
| FbxExport.FbxAdapter.Restart | src/C3DModelFBX.cpp:301-303 | the `.stu` file is removed, so no chunk is left from earlier exports; nothing else changes |
| FbxExport.FbxAdapter.Prepare | src/C3DModelFBX.cpp:385-394 | the flip flag is stored, the skeletons counted (switching to the Bones layout when there are any) and the parsed animations added |
| FbxExport.FbxAdapter.WriteAnimations | src/C3DModelFBX.cpp:396-402 | "Animations" is written when this export parsed an animated layer; the model and vertex-chunk counters restart at 0 |
| FbxExport.FbxAdapter.Finish | src/C3DModelFBX.cpp:404-407 | "Bones" is written when the scene has skeletons |
| FbxExport.FbxAdapter.ParseSubSkeletons | src/C3DModelFBX.cpp:423-459 | the number of skeleton attributes in the subtree |
| FbxExport.FbxAdapter.ParseAnimations | src/C3DModelFBX.cpp:461-517 | the animations of every stack's layers with channels are added to the kept ones, and the result says whether any was found |
| FbxExport.FbxAdapter.ParseStack | src/C3DModelFBX.cpp:486-514 | the animations of one stack's layers with channels are added, and the result says whether any was found |
| FbxExport.FbxAdapter.ParseAnimationLayer | src/C3DModelFBX.cpp:519-675 | the node's channel, then its children's, are appended, and the result says whether the subtree had any |
| FbxExport.FbxAdapter.ParseChildren | src/C3DModelFBX.cpp:669-672 | every child subtree's channels are appended, in order |
| FbxExport.FbxAdapter.ParseChild | src/C3DModelFBX.cpp:669-672 | one child subtree's channels are appended |
| FbxExport.FbxAdapter.ParseChannel | src/C3DModelFBX.cpp:529-667 | the node's own channel in the layer: none without curves or when only rest keys remain |
| FbxExport.FbxAdapter.MergeAxes | src/C3DModelFBX.cpp:572-642 | the X, Y and Z curves of one property merged in turn |
| FbxExport.FbxAdapter.MergeCurve | src/C3DModelFBX.cpp:572-594 | each key of one curve appended unless a key after the rest key lies near its time |
| FbxExport.FbxAdapter.ExportSubTree | src/C3DModelFBX.cpp:779-1080 | the node's Model chunk, then each child's subtree in order |
| FbxExport.FbxAdapter.ExportChildren | src/C3DModelFBX.cpp:1076-1079 | every child subtree, in order |
| FbxExport.FbxAdapter.ExportNode | src/C3DModelFBX.cpp:785-1074 | the node's name, its mesh records, then its Model chunk |
| FbxExport.FbxAdapter.WriteModel | src/C3DModelFBX.cpp:1067-1074 | the Model chunk is written under the next model number |
| FbxExport.FbxAdapter.CollectMeshes | src/C3DModelFBX.cpp:807-821 | the node's mesh attributes, in attribute order |
| FbxExport.FbxAdapter.CountWithPolygons | src/C3DModelFBX.cpp:823-835 | the number of meshes with polygons |
| FbxExport.FbxAdapter.FindMaterial | src/C3DModelFBX.cpp:846-854 | the first non-null source material, or none |
| FbxExport.FbxAdapter.ExportMeshes | src/C3DModelFBX.cpp:837-1065 | the state and the payload after mesh indices below the mesh count, a mesh without polygons skipped |
| FbxExport.FbxAdapter.MeshesTurn | src/C3DModelFBX.cpp:837-1065 | one index of the mesh loop advances the state and payload by that index |
| FbxExport.FbxAdapter.VisitMesh | src/C3DModelFBX.cpp:839-844 | a mesh without polygons is passed over; otherwise it is exported |
| FbxExport.FbxAdapter.ExportMesh | src/C3DModelFBX.cpp:846-1064 | one mesh: its record in the node payload and its effect on the state |
| FbxExport.FbxAdapter.ExportVertices | src/C3DModelFBX.cpp:891-935 | the layout is the decision for this mesh, and the vertex and box chunks are written |
| FbxExport.FbxAdapter.CountCorners | src/C3DModelFBX.cpp:891-892 | the number of polygon vertices of the mesh |
| FbxExport.FbxAdapter.LoadBones | src/C3DModelFBX.cpp:1502-1573 | the influence lists are reset and sized, then every cluster of every skin is interned |
| FbxExport.FbxAdapter.LoadSkin | src/C3DModelFBX.cpp:1518-1571 | every cluster of one skin is interned, in order |
| FbxExport.FbxAdapter.LoadCluster | src/C3DModelFBX.cpp:1519-1570 | one cluster's bone interned, then its weights added |
| FbxExport.FbxAdapter.RegisterBone | src/C3DModelFBX.cpp:1524-1555 | a known hash keeps its index; a new one gets the next index and a `BoneInfo` holding its offset |
| FbxExport.FbxAdapter.WriteVertexChunk | src/C3DModelFBX.cpp:1377-1468 | appends the vertex chunk and the box chunk of the mesh, or nothing when it has no polygon vertex |
| FbxExport.FbxAdapter.VertexRecords | src/C3DModelFBX.cpp:1416-1442 | the records of every polygon vertex and the box of all their positions |
| FbxExport.FbxAdapter.PolygonRecords | src/C3DModelFBX.cpp:1418-1441 | one polygon's records and box growth added to those so far |
| FbxProperties.SeenExtends | src/C3DModelFBX.cpp:572-594 | a key near a time stays near it when keys are appended |
| FbxProperties.MergeKeysShape | src/C3DModelFBX.cpp:572-594 | merging a curve only appends keys of that curve, at most one per curve key |
| FbxProperties.MergeKeysSpaced | src/C3DModelFBX.cpp:572-594 | after the merge no two keys after the rest key lie within the tolerance of each other |
| FbxProperties.MergeKeysCovers | src/C3DModelFBX.cpp:572-594 | after the merge every curve key's time has a key near it after the rest key |
| FbxProperties.FirstCurveKeyKept | src/C3DModelFBX.cpp:572-594 | the first curve key always follows the rest key, even at time 0 |
| FbxProperties.MergeCurvesShape | src/C3DModelFBX.cpp:572-642 | merging the three axes keeps the keys already there in front |
| FbxProperties.MergeCurvesSpaced | src/C3DModelFBX.cpp:572-642 | merging the three axes keeps the keys spaced |
| FbxProperties.MergeCurvesCovers | src/C3DModelFBX.cpp:572-642 | after merging the three axes every key of each present curve is covered |
| FbxProperties.ChannelOfProperties | src/C3DModelFBX.cpp:552-642 | a node's channel is named after it, each list starts with its rest key at time 0, the later keys are spaced and cover every key of the property's curves |
| FbxProperties.AllWellFormedAppend | src/C3DModelFBX.cpp:644-672 | two lists of well-formed channels join into one |
| FbxProperties.OwnChannelWellFormed | src/C3DModelFBX.cpp:644-667 | the channel a node keeps has a list with more than its rest key, each list starting at time 0 and spaced |
| FbxProperties.LayerChannelsWellFormed | src/C3DModelFBX.cpp:519-675 | every channel a layer yields for a subtree is well formed |
| FbxProperties.ChildrenChannelsWellFormed | src/C3DModelFBX.cpp:669-672 | every channel the child loop yields is well formed |
| FbxProperties.ChildrenChannelsFound | src/C3DModelFBX.cpp:669-672 | the child loop finds channels exactly when some child subtree has channels |
| FbxProperties.ChildrenChannelsWitness | src/C3DModelFBX.cpp:669-672 | channels from the child loop come from some child subtree |
| FbxProperties.ChildChannelsKept | src/C3DModelFBX.cpp:669-672 | a child subtree with channels makes the child loop find channels |
| FbxProperties.LayerChannelsFound | src/C3DModelFBX.cpp:519-675 | a layer has channels in a subtree exactly when the node has its own or some child subtree has some |
| FbxProperties.AllKeptAppend | src/C3DModelFBX.cpp:505-512 | two lists of kept animations join into one |
| FbxProperties.StackAnimationsKept | src/C3DModelFBX.cpp:486-514 | every animation kept from a stack has channels, all well formed, and no mesh channels |
| FbxProperties.ParsedAnimationsKept | src/C3DModelFBX.cpp:461-517 | every animation the parser keeps has channels, all well formed, and no mesh channels |
| FbxProperties.LayerNames | src/C3DModelFBX.cpp:494-501 | a single layer keeps the stack's name; with several layers, distinct layers get distinct names |
| FbxProperties.AdvanceRefl | src/C3DModelFBX.cpp:779-1080 | no step advances nothing |
| FbxProperties.AdvanceTrans | src/C3DModelFBX.cpp:779-1080 | two walks in a row advance by their sums |
| FbxProperties.MeshStateAdvance | src/C3DModelFBX.cpp:846-1064 | a mesh with polygons writes its vertex chunks and no Model chunk, and counts one mesh |
| FbxProperties.MeshStateFrame | src/C3DModelFBX.cpp:846-1064 | a mesh appends exactly its vertex chunks under the next vertex-chunk name, advances the mesh and vertex-chunk counters by one, and leaves the rest but the bone state alone |
| FbxProperties.MeshChunksAddNoModel | src/C3DModelFBX.cpp:1447-1466 | a mesh's vertex chunks are not Model chunks |
| FbxProperties.MeshesAdvance | src/C3DModelFBX.cpp:837-1065 | the mesh loop writes no Model chunk and counts the meshes with polygons it visits |
| FbxProperties.CloseNodeAdvance | src/C3DModelFBX.cpp:1067-1074 | closing a node adds one Model chunk, numbered next, and counts the node |
| FbxProperties.NodeStepAdvance | src/C3DModelFBX.cpp:785-1074 | a node writes exactly one Model chunk, after its meshes' vertex chunks |
| FbxProperties.SubTreeAdvance | src/C3DModelFBX.cpp:779-1080 | a subtree writes one Model chunk per node, numbered on from the current model count |
| FbxProperties.ChildrenAdvance | src/C3DModelFBX.cpp:1076-1079 | the first `k` children write as many Model chunks as they have nodes |
| FbxProperties.MeshCountSkipsLaterMesh | src/C3DModelFBX.cpp:823-844 | the mesh loop runs over the first `meshCount` mesh attributes: an empty mesh ahead of a full one makes the node announce one mesh and write no mesh record |
| FbxProperties.FullMeshLoopMatchesCount | src/C3DModelFBX.cpp:823-841 | a mesh loop over every mesh attribute counts and writes exactly the `meshCount` meshes it announces |
| FbxProperties.InternClusterDense | src/C3DModelFBX.cpp:1524-1555 | interning one cluster keeps the bone table dense |
| FbxProperties.InternClustersDense | src/C3DModelFBX.cpp:1518-1571 | interning a skin's clusters keeps the bone table dense |
| FbxProperties.InternSkinsDense | src/C3DModelFBX.cpp:1515-1572 | interning every skin keeps the bone table dense |
| FbxProperties.MeshStateDense | src/C3DModelFBX.cpp:846-1064 | one mesh keeps the bone table dense |
| FbxProperties.MeshesDense | src/C3DModelFBX.cpp:837-1065 | the mesh loop keeps the bone table dense |
| FbxProperties.SubTreeDense | src/C3DModelFBX.cpp:779-1080 | a whole subtree keeps the bone table dense |
| FbxProperties.ChildrenDense | src/C3DModelFBX.cpp:1076-1079 | the child loop keeps the bone table dense |
| FbxProperties.ExportKeepsDense | src/C3DModelFBX.cpp:297-414 | a dense bone table stays dense across a whole export |
| FbxProperties.ClusterWeightsAccumulate | src/C3DModelFBX.cpp:1561-1570 | after a cluster's weights are added, a control point's list is its earlier accumulation followed by the cluster's non-negligible weights on it, in order |
| FbxProperties.BonesRecordSkin | src/C3DModelFBX.cpp:1321-1351 | the skin of a Bones record is slots 0..3 of its control point's list, or the rigid skin past the end of the lists |
| FbxProperties.MeshChunksShape | src/C3DModelFBX.cpp:1377-1468 | no chunks without polygon vertices; otherwise the vertex chunk with one record per polygon vertex in order, in the layout and at its control point's position, then the box chunk of a box containing every position |
| FbxProperties.RecordOfShape | src/C3DModelFBX.cpp:1416-1442 | a record has the chosen layout and its control point's position |
| FbxProperties.MaterialChoice | src/C3DModelFBX.cpp:960-1051 | defaults for a missing or non-Lambert material; otherwise the Lambert colours, alpha from "Opacity" or one minus transparency, Phong's specular and shininess; a diffuse colour entry carries that alpha |
| FbxProperties.ExportOutcome | src/C3DModelFBX.cpp:301-309 | the export fails exactly when the scene does not load; the `.stu` file is then already removed and nothing else changes |
| FbxProperties.BeforeTreeOpens | src/C3DModelFBX.cpp:385-402 | before the walk only "Animations" may be written, the model count is 0 and the animations are the earlier ones plus the parsed ones |
| FbxProperties.AfterTreeCloses | src/C3DModelFBX.cpp:404-407 | after the walk only the "Bones" chunk may be added |
| FbxProperties.ExportChunkOrder | src/C3DModelFBX.cpp:301-407 | after a successful export the `.stu` file holds only its chunks: "Animations" (when animated), the tree with one Model chunk per node numbered from 0 in pre-order, then "Bones" (with skeletons); the name counters carry on across exports |
| FbxProperties.SecondExportRepeatsAnimations | src/C3DModelFBX.cpp:394-401 | the second export's file starts with an "Animations" chunk that lists the first export's animations again before its own, because the parsed animations are never cleared |
| ObjScene.Records | src/C3DModelOBJ.cpp:87-114 | one record per corner, in corner order, each the record of that corner |
| ObjScene.Positions | src/C3DModelOBJ.cpp:91-96 | one position per corner, each read from the corner's vertex index |
| ObjScene.RecordsStep | src/C3DModelOBJ.cpp:87-147 | one more corner adds one record and grows the box by its position |
| ObjScene.AlphaOf | src/C3DModelOBJ.cpp:312-318 | the alpha is the dissolve value or 1, and never below 0.001 |
| ObjScene.AtShapeStep | src/C3DModelOBJ.cpp:226-366 | a shape with corners takes the shape loop one shape further |
| ObjScene.NextCornered | src/C3DModelOBJ.cpp:226 | a shape with corners, reached by the loop, lies before the first shape without corners |
| ObjScene.ShapesStep | src/C3DModelOBJ.cpp:226-366 | one more shape of the loop adds that shape's state change |
| ObjScene.FirstEmpty | src/C3DModelOBJ.cpp:153-155 | the index of the first shape without corners, with every shape before it having corners, or the number of shapes |
| ObjScene.ZeroEntries | src/C3DModelOBJ.cpp:214 | one entry per shape, each 0 |
| ObjScene.AllMaterials | src/C3DModelOBJ.cpp:217-223 | the file's materials plus one appended default |
| ObjScene.RunShapesDone | src/C3DModelOBJ.cpp:226-374 | a loop that has passed every shape returns true with the state it reached |
| ObjScene.RunShapesThrown | src/C3DModelOBJ.cpp:153-155 | a loop stopped at a shape without corners ends the program with that shape's counters advanced |
| ObjExport.ObjAdapter.constructor | src/C3DModelOBJ.cpp:46-55 | counters 0, no flip, no entries, solid colour grey 0.5, nothing written |
| ObjExport.ObjAdapter.SetDefaultSolidColor | src/C3DModelOBJ.h:14 | only the solid colour changes |
| ObjExport.ObjAdapter.ExportWithDefaults | src/C3DModelOBJ.cpp:61-66 | the export with flipped texture coordinates |
| ObjExport.ObjAdapter.ExportToSTUFormat | src/C3DModelOBJ.cpp:175-375 | the result and the new adapter state are those of the export of the file |
| ObjExport.ObjAdapter.ExportShapes | src/C3DModelOBJ.cpp:226-374 | the result and state of the shape loop over the loaded file |
| ObjExport.ObjAdapter.ShapesTurn | src/C3DModelOBJ.cpp:226-366 | one turn of the loop: a shape without corners throws after its counters advance; otherwise the loop reaches the next shape |
| ObjExport.ObjAdapter.ExportShape | src/C3DModelOBJ.cpp:228-366 | a shape throws exactly when it has no corners, after its counters advance; otherwise its chunks are written |
| ObjExport.ObjAdapter.NameShape | src/C3DModelOBJ.cpp:228-279 | the node and mesh names from the two counters, the start of the payload, and the three counters advanced |
| ObjExport.ObjAdapter.CloseShape | src/C3DModelOBJ.cpp:284-365 | the empty index list, triangle tag, two-sided 0 and the surface of the first face's material, then the Model chunk under the next number |
| ObjExport.ObjAdapter.AppendModel | src/C3DModelOBJ.cpp:357-365 | the Model chunk is written under the next model number |
| ObjExport.ObjAdapter.Surface | src/C3DModelOBJ.cpp:298-354 | the material block and both texture descriptors of the material the first-face id selects |
| ObjExport.ObjAdapter.DiffuseFields | src/C3DModelOBJ.cpp:326-340 | the diffuse descriptor of the material |
| ObjExport.ObjAdapter.HeightFields | src/C3DModelOBJ.cpp:342-354 | the height descriptor of the material |
| ObjExport.ObjAdapter.WriteVertexChunk | src/C3DModelOBJ.cpp:68-173 | throws exactly when there are no corners, writing nothing; otherwise appends the vertex chunk and its box chunk |
| ObjExport.ObjAdapter.ObjVertexRecords | src/C3DModelOBJ.cpp:87-148 | the record of every corner and the box of all their positions |
| ObjProperties.RecordOfCorner | src/C3DModelOBJ.cpp:78-148 | a record holds its corner's position; it has the Normals layout and the corner's normal exactly when the file has normals; it has a texture coordinate exactly when the file has some and the corner names one, with v flipped on request |
| ObjProperties.MeshChunksShape | src/C3DModelOBJ.cpp:68-173 | the vertex chunk holds one record per corner in order, then the "<name>BB" chunk of a box holding every corner's position |
| ObjProperties.MeshBoxAttained | src/C3DModelOBJ.cpp:75-102 | each bound of the box is a corner's coordinate, unless it is still the empty box's |
| ObjProperties.MaterialChoice | src/C3DModelOBJ.cpp:298-304 | a first-face id picks the file's material it names; a negative id or one past the file's materials picks the default |
| ObjProperties.DefaultSurface | src/C3DModelOBJ.cpp:217-223 | the default material is written as the solid colour three times, shininess 8, alpha 1, the colour diffuse entry with alpha 1, and no height texture |
| ObjProperties.DiffuseSlotKinds | src/C3DModelOBJ.cpp:326-340 | the diffuse descriptor is a non-empty texture name exactly when the material names a file, else the colour entry with the written alpha |
| ObjProperties.HeightSlotKinds | src/C3DModelOBJ.cpp:342-354 | the height descriptor is a non-empty texture name exactly when the material names a bump file, else none |
| ObjProperties.ShapeWrites | src/C3DModelOBJ.cpp:228-366 | a shape with corners appends its vertex chunk pair, then its Model chunk, and advances each counter by one |
| ObjProperties.ShapeChunkOrder | src/C3DModelOBJ.cpp:281-365 | a shape appends exactly the vertex chunk, its box chunk and its Model chunk, in that order |
| ObjProperties.ShapeChunksAgree | src/C3DModelOBJ.cpp:275-285 | the Model chunk's vertex count is the number of records in the vertex chunk, its index count is 0, and its Normals tag holds although the records carry normals only when the file has them |
| ObjProperties.MeshRecordsLayout | src/C3DModelOBJ.cpp:78-148 | every entry of a vertex chunk is a record whose layout is Normals exactly when the file has normals |
| ObjProperties.ShapeDataCounts | src/C3DModelOBJ.cpp:275-285 | the corner count, the Normals tag and the empty index list sit at fields 8, 9 and 10 of the Model chunk |
| ObjProperties.AdvanceTrans | src/C3DModelOBJ.cpp:226-366 | two stretches of the loop in a row advance by their sums |
| ObjProperties.ShapeAdvance | src/C3DModelOBJ.cpp:228-366 | a shape with corners writes one Model chunk, numbered next |
| ObjProperties.ShapesAdvance | src/C3DModelOBJ.cpp:226-366 | the first `k` shapes write `k` Model chunks numbered on from the model count |
| ObjProperties.StepAdvance | src/C3DModelOBJ.cpp:226-366 | each shape of the loop writes one Model chunk |
| ObjProperties.NodeNameCounterDistinct | src/C3DModelOBJ.cpp:230-237 | different counters give different node names, whatever the shapes' names |
| ObjProperties.ShapesCounters | src/C3DModelOBJ.cpp:230-237 | shape `k` of an export is named with node counter start plus `k` |
| ObjProperties.ExportOutcome | src/C3DModelOBJ.cpp:175-375 | an unloadable file returns false and writes nothing; a loaded one returns true exactly when every shape has corners, after one Model chunk per shape numbered from 0, and otherwise ends the program at the first shape without corners |
| XmlScene.TokenEnd | src/C3DModelXML.cpp:53-60 | the token scan stops at the next space at or after its start, or at the end of the text, passing no space on the way |
| XmlScene.Values | src/C3DModelXML.cpp:67 | one number per token |
| XmlScene.Phase | src/C3DModelXML.cpp:80 | the pending count of an unfinished group is below the stride |
| XmlScene.PhaseNext | src/C3DModelXML.cpp:69-80 | one more number grows the pending count, or restarts it at 0 when the group completes |
| XmlScene.ValuesSnoc | src/C3DModelXML.cpp:67 | one more token, one more number |
| XmlScene.GroupSnoc | src/C3DModelXML.cpp:69-77 | one more number pushes the completed group, if it completes one |
| XmlScene.ReadToken | src/C3DModelXML.cpp:51-79 | the token at the scan position is the next token of the text, and the scan moves one past its end |
| XmlScene.TokensFromStep | src/C3DModelXML.cpp:51-79 | the tokens from a position are the token there followed by the tokens after the space that ends it |
| XmlScene.GroupPush | src/C3DModelXML.cpp:67-80 | a number completes a group exactly when the pending count reaches the stride, and the pushed vector is made of the pending numbers (z 0 for pairs) |
| XmlScene.ShortsOf | src/C3DModelXML.cpp:339 | one index per token |
| XmlScene.ShortsSnoc | src/C3DModelXML.cpp:339 | one more token adds its `atoi` value modulo 2^16 |
| XmlScene.FlipAll | src/C3DModelXML.cpp:138-140 | one written position per vertex |
| XmlScene.FlipStep | src/C3DModelXML.cpp:136-157 | one more vertex adds its flipped position and grows the box by it |
| XmlScene.MaterialSnoc | src/C3DModelXML.cpp:104-116 | one more material: a diffuse one with an integer index overwrites the index, and while the index is above -1 its coordinates are appended |
| XmlScene.XmlRecords | src/C3DModelXML.cpp:136-159 | one record per vertex |
| XmlScene.IndexFields | src/C3DModelXML.cpp:343-348 | the index count followed by one field per index |
| XmlScene.ModelsState | src/C3DModelXML.cpp:246-422 | the model loop keeps the texture list |
| XmlScene.AfterModel | src/C3DModelXML.cpp:246-422 | one more model keeps the texture list |
| XmlScene.FirstThrow | src/C3DModelXML.cpp:165 | the first model whose empty vertex payload makes `Data.at(0)` throw, with no earlier one throwing, or the bound |
| XmlScene.FirstThrowAt | src/C3DModelXML.cpp:165 | the first throwing model is `c` when none before it throws and it does |
| XmlScene.ReachedModel | src/C3DModelXML.cpp:246-421 | a model the loop reaches with no earlier throw has texts the parser can read, and is fully valid unless it throws itself |
| XmlScene.NoneThrowBefore | src/C3DModelXML.cpp:165 | no model before one reached without a throw throws |
| XmlScene.FirstSkip | src/C3DModelXML.cpp:249-254 | the first collision model when those are not loaded, with none before it, or the number of models |
| XmlScene.CursorStep | src/C3DModelXML.cpp:246-254 | each iteration the cursor is on a model; a skipped one keeps it there, any other moves it one on |
| XmlScene.CursorEnd | src/C3DModelXML.cpp:246 | after the last iteration the cursor has passed every planned model |
| XmlScene.LoadedTextures | src/C3DModelXML.cpp:228-240 | `count` texture names, none for a missing element or a negative count |
| XmlScene.KeptModels | src/C3DModelXML.cpp:252-254 | the kept models are no more than the models |
| XmlExport.XmlAdapter.constructor | src/C3DModelXML.cpp:23-38 | counters 0, no flips, solid colour grey 0.5, no textures, nothing written |
| XmlExport.XmlAdapter.SetDefaultSolidColor | src/C3DModelXML.h:17 | only the solid colour changes |
| XmlExport.XmlAdapter.ExportWithDefaults | src/C3DModelXML.cpp:187-192 | the export with flipped texture coordinates, no collision models and no axis flips |
| XmlExport.XmlAdapter.ExportFlipUV | src/C3DModelXML.cpp:195-198 | the export with no collision models and no axis flips |
| XmlExport.XmlAdapter.ExportToSTUFormat | src/C3DModelXML.cpp:200-431 | the result and the new adapter state are those of the export of the document |
| XmlExport.XmlAdapter.Reset | src/C3DModelXML.cpp:210-217 | the flip flags are stored, the counters are zeroed and the entries are cleared; the textures, identifiers, solid colour and written chunks are kept |
| XmlExport.XmlAdapter.ExportDoc | src/C3DModelXML.cpp:225-430 | a loaded document after the resets: its texture names, then its models |
| XmlExport.XmlAdapter.LoadTextures | src/C3DModelXML.cpp:228-240 | the document's texture names are appended to the kept list |
| XmlExport.XmlAdapter.ExportModels | src/C3DModelXML.cpp:243-422 | the result and state of the model loop over the planned models |
| XmlExport.XmlAdapter.ModelsTurn | src/C3DModelXML.cpp:246-421 | one iteration: a skipped model keeps the cursor; an exported one moves it on, or throws after its counters advance |
| XmlExport.XmlAdapter.ExportAt | src/C3DModelXML.cpp:256-421 | model `c` exported after the models before it, or a throw with its counters advanced |
| XmlExport.XmlAdapter.ExportModel | src/C3DModelXML.cpp:256-420 | throws exactly when the vertex payload is empty; otherwise the model's chunks are written |
| XmlExport.XmlAdapter.ModelBody | src/C3DModelXML.cpp:271-410 | the Model chunk payload: head, indices, fixed surface and texture descriptors |
| XmlExport.XmlAdapter.NameModel | src/C3DModelXML.cpp:256-314 | the node, mesh and vertex chunk names from the three counters, which advance |
| XmlExport.XmlAdapter.CloseModel | src/C3DModelXML.cpp:412-420 | the Model chunk is written under the next model number |
| XmlExport.XmlAdapter.ParseIndices | src/C3DModelXML.cpp:317-341 | the index list of the text |
| XmlExport.XmlAdapter.IndexTurn | src/C3DModelXML.cpp:324-341 | one turn of the index loop reads the next token and moves the scan past it |
| XmlExport.XmlAdapter.ScanDiffuseIndex | src/C3DModelXML.cpp:368-379 | the index of the last diffuse material that has an integer one, or -1 |
| XmlExport.XmlAdapter.DiffuseFields | src/C3DModelXML.cpp:380-407 | the diffuse descriptor of the chosen texture |
| XmlExport.XmlAdapter.ReadDiffuseUVs | src/C3DModelXML.cpp:100-117 | the diffuse index and the texture coordinates the material loop reads |
| XmlExport.XmlAdapter.WriteVertexChunk | src/C3DModelXML.cpp:84-185 | throws exactly when the counts agree and there are no vertices, writing nothing; otherwise the vertex chunk pair, or nothing on a count mismatch |
| XmlExport.XmlAdapter.XmlVertexRecords | src/C3DModelXML.cpp:136-159 | the record of every vertex and the box of the flipped positions |
| XmlExport.XmlAdapter.ScanToken | src/C3DModelXML.cpp:53-60 | the end of the token that starts at `j` |
| XmlExport.XmlAdapter.CopyToken | src/C3DModelXML.cpp:61-66 | the NUL-terminated buffer holds exactly the token |
| XmlExport.XmlAdapter.NextToken | src/C3DModelXML.cpp:53-66 | the next token of the text, and the scan position after it |
| XmlExport.XmlAdapter.ParseVectorString | src/C3DModelXML.cpp:44-82 | the vectors of the text are pushed after those already in the array |
| XmlProperties.TokensFromShape | src/C3DModelXML.cpp:51-79 | every token is non-empty and holds no space after its first character |
| XmlProperties.TokensFromJoin | src/C3DModelXML.cpp:51-79 | the tokens joined by single spaces give back the text, short of at most one trailing space |
| XmlProperties.JoinAtSpace | src/C3DModelXML.cpp:51-79 | a token ended by a space joins with the tokens after it |
| XmlProperties.SplitAtSpace | src/C3DModelXML.cpp:56-58 | the text splits around a space |
| XmlProperties.JoinStep | src/C3DModelXML.cpp:51-79 | a token joins with the tokens of the text after its space |
| XmlProperties.JoinLast | src/C3DModelXML.cpp:51-79 | the last token joins to itself |
| XmlProperties.TokensOfText | src/C3DModelXML.cpp:44-82 | the tokens of a text node are non-empty, hold no space after their first character, and joined by spaces give back the text |
| XmlProperties.ValuesAt | src/C3DModelXML.cpp:67 | number `i` is `atof` of token `i` |
| XmlProperties.ShortsAt | src/C3DModelXML.cpp:339 | index `i` is `atoi` of token `i` modulo 2^16 |
| XmlProperties.IndicesOfText | src/C3DModelXML.cpp:317-341 | one index per token of the text, in order, each cut to 16 bits |
| XmlProperties.GroupCount3 | src/C3DModelXML.cpp:69-80 | every complete group of three numbers makes one vector; an unfinished last group makes none |
| XmlProperties.GroupCount2 | src/C3DModelXML.cpp:69-80 | every complete pair makes one vector; an unfinished last number makes none |
| XmlProperties.GroupAt3 | src/C3DModelXML.cpp:69-77 | vector `i` holds numbers `3i` to `3i + 2` |
| XmlProperties.GroupAt2 | src/C3DModelXML.cpp:69-77 | vector `i` holds numbers `2i` and `2i + 1`, with z 0 |
| XmlProperties.VectorsOfText | src/C3DModelXML.cpp:44-82 | one vector per complete group of three tokens, made of their `atof` values |
| XmlProperties.UVsOfText | src/C3DModelXML.cpp:44-82 | one vector per complete pair of tokens, with z 0 |
| XmlProperties.FlipInvolution | src/C3DModelXML.cpp:138-144 | flipping the same axes twice gives the vector back; no flags change nothing |
| XmlProperties.FlipAllAt | src/C3DModelXML.cpp:138-140 | position `i` as written is vertex `i` flipped |
| XmlProperties.XmlRecordsAt | src/C3DModelXML.cpp:136-159 | record `i` is the record of vertex `i` |
| XmlProperties.VertexOutcomeCases | src/C3DModelXML.cpp:119-165 | nothing is written exactly when the normal count, or the coordinate count while a diffuse index is set, differs from the vertex count; the payload is empty exactly when they agree and there are no vertices |
| XmlProperties.WrittenVertexChunk | src/C3DModelXML.cpp:136-184 | a written chunk holds one record per vertex with flipped position and normal and, while an index is set, the coordinate as read; then the "<name>BB" chunk of a box holding every flipped position |
| XmlProperties.DiffuseIndexLast | src/C3DModelXML.cpp:104-116 | the diffuse index is that of the last diffuse material with an integer index |
| XmlProperties.DiffuseIndexNone | src/C3DModelXML.cpp:101 | without such a material the index stays -1 |
| XmlProperties.OneDiffuseMaterial | src/C3DModelXML.cpp:104-116 | one diffuse material that names a texture gives the coordinates of its text |
| XmlProperties.DiffuseSlotChoice | src/C3DModelXML.cpp:380-407 | the diffuse descriptor names the chosen texture's folder-stripped, rewritten file when there is one, else the colour entry with alpha 1; no index picks texture 0, an index below -1 picks none |
| XmlProperties.IndexFieldsAt | src/C3DModelXML.cpp:343-348 | the index count first, then index `i` at field `1 + i` |
| XmlProperties.SlotsFieldsEnd | src/C3DModelXML.cpp:384-410 | the diffuse descriptor, then the empty normal-map entry |
| XmlProperties.ModelFieldsLayout | src/C3DModelXML.cpp:271-348 | the Model chunk's head fields in order, then the index count and the indices, then the tail and the slots |
| XmlProperties.ModelWrites | src/C3DModelXML.cpp:256-420 | a model that does not throw writes its vertex chunk pair (or nothing on a mismatch), then its Model chunk, and advances each counter by one |
| XmlProperties.AdvanceTrans | src/C3DModelXML.cpp:246-422 | two stretches of the loop in a row advance by their sums |
| XmlProperties.AdvanceByOne | src/C3DModelXML.cpp:412-420 | one Model chunk numbered next with every counter advanced by one is an advance by one |
| XmlProperties.VertexOutcomeAppends | src/C3DModelXML.cpp:84-185 | the vertex chunks of a model add no Model chunk |
| XmlProperties.ModelAdvance | src/C3DModelXML.cpp:256-420 | a model that does not throw writes one Model chunk, numbered next |
| XmlProperties.StepAdvance | src/C3DModelXML.cpp:246-422 | each model of the loop writes one Model chunk |
| XmlProperties.ModelsAdvance | src/C3DModelXML.cpp:246-422 | the first `k` models write `k` Model chunks numbered on from the model count |
| XmlProperties.AdvanceUpTo | src/C3DModelXML.cpp:246-422 | the models before the first throw write one Model chunk each |
| XmlProperties.AdvanceStep | src/C3DModelXML.cpp:246-422 | one more model extends the advance by one |
| XmlProperties.NoneThrowUpTo | src/C3DModelXML.cpp:165 | models none of which throws are reached without a throw |
| XmlProperties.NodeNameCounterDistinct | src/C3DModelXML.cpp:258-266 | different counters give different node names, whatever the models' names |
| XmlProperties.ExportOutcome | src/C3DModelXML.cpp:200-431 | an unloadable document returns false and writes nothing; a loaded one returns true exactly when no planned model throws, after one Model chunk per model numbered from 0, and the texture names are appended |
| XmlProperties.PlannedLoading | src/C3DModelXML.cpp:246-254 | with collision models loaded the loop exports `count` models |
| XmlProperties.PlannedSkipping | src/C3DModelXML.cpp:246-254 | without them no exported model is a collision model, and the loop stops short of `count` exactly at the first collision model |
| XmlProperties.KeptModelsMembers | src/C3DModelXML.cpp:252-254 | exactly the models not passed over are kept |
| XmlProperties.KeptModelsAll | src/C3DModelXML.cpp:252-254 | with none to pass over, every model is kept |
| XmlProperties.KeptModelsPrefix | src/C3DModelXML.cpp:252-254 | the kept models stay in document order |
| XmlProperties.AsWrittenPrefix | src/C3DModelXML.cpp:246-421 | the loop as written exports a prefix of the intended models, and all of them when no collision model is passed over |
| XmlProperties.CollisionCursorCounterexample | src/C3DModelXML.cpp:251-254 | a collision model before a plain one, two announced: the loop as written exports nothing, the intended loop exports the plain model |
| XmlProperties.FirstThrowPrefix | src/C3DModelXML.cpp:165 | the first throwing model depends only on the models before the bound |
| XmlProperties.ModelsStatePrefix | src/C3DModelXML.cpp:246-422 | the state after `k` models depends only on those models |
| XmlProperties.RunModelsPrefix | src/C3DModelXML.cpp:246-422 | the model loop over `n` models depends only on those models |
| XmlProperties.StatesAgree | src/C3DModelXML.cpp:246-422 | the states after the first `k` models agree when those models do |
| XmlProperties.ExportsAgree | src/C3DModelXML.cpp:246-421 | without a collision model passed over among the first `count`, the export as written is the intended one |

## Left out

- Float, vector and matrix bytes: the byte encoding of `float` values is not modelled. A payload is a sequence of typed fields, and the text fields carry their exact bytes.
- Tangent packing (`src/C3DModelAssimp.cpp:494-503`, `557-566`), the FBX UV transform (`src/C3DModelFBX.cpp:1171-1196`), `CalcNormal` of the OBJ adapter, quaternion normalisation, matrix element-order conversion and the Lambert/Phong factor products are floating-point numerics. The model carries these values as opaque inputs.
- Third-party traversal and accessors: FBX layer elements, UV-set selection, axis conversion, triangulation, Assimp post-processing flags and tinyobjloader/TinyXML parsing. Each loader's result is a parameter of the export.
- `FBXHelper` and the command-line driver `3DConvert.cpp` are not part of this model.
- Texture file handling (`ProcessFileTexture`, `GetMaterialTexturePath`): the renaming and copying of texture files on disk is not modelled. Only the texture name written into the chunk is modelled, including the `.tif`/`.psd` to `.png` rewrite.
- Embedded Assimp textures: the conversion of embedded pixel data is not modelled. Only the "InternalTexture(N)" name is modelled.
- File I/O: `fopen`, `fwrite` and `fclose` become a map from paths to bytes, plus a set of paths that cannot be opened for writing. Leaked handles and partial writes are not modelled.
- Memory: allocation of chunk buffers never fails in the model. Leaked allocations are not modelled.
- Mesh animation: the source leaves it as a TODO (`src/C3DModelFBX.cpp:656`) and exports none, so there is nothing to model.
- Hash collisions between chunk names are not modelled. The hash is computed exactly, but no property depends on distinct names having distinct hashes.
- Counts and sizes of 2^32 or more are not modelled. The 32-bit size fields wrap modulo 2^32 explicitly; the other counters are unbounded.
- `atof`: the numeric values read from XML text are a parameter. `atoi` is modelled.
- The XML adapter's `SolidColor` and `FlipUVonY` settings are stored but never read by its export; the model stores them too.
- Undefined behaviour in the source becomes a `requires`, or gets a fixed value, as each member's doc comment says. The OBJ and XML requirements cover only what the loop reaches before the first shape or model whose `Data.at(0)` throws (`ObjScene.ShapesValid`, `XmlScene.ReachedValid`):
  - out-of-range indices into the OBJ arrays (`ObjScene.IndexValid`);
  - an XML token of 20 characters or more overflows the 20-character buffer (`XmlScene.TokensShort`);
  - a null XML element, or the model cursor running past the last model (`XmlScene.CursorValid`);
  - an FBX control point past the end of the vertex array reads the origin (`FbxScene.PositionOf`);
  - a bone influence on a vertex past the end of `m_Bones` leaves the table unchanged (`SceneExport.AddInfluence`). The FBX adapter sizes `m_Bones` by polygon vertices but indexes it by control point.
  - the Assimp adapter reads `m_Entries[m_TotalMeshCount + i]` (src/C3DModelAssimp.cpp:583, :714), which runs past the end when the nodes reference more meshes than the scene has, for instance one mesh shared by two nodes. The model gives no base vertex there: the mesh gets no bone weights and its vertices the rigid skin (`AssimpScene.BaseVertex`).
  - a skinned vertex past the end of `m_Bones` (src/C3DModelAssimp.cpp:583-592) is written with the rigid skin (`SceneExport.SkinAt`).
- XmlExport.XmlAdapter.ExportToSTUFormat: it requires that the model cursor never runs past the last model (`XmlScene.CursorValid`). The source only reaches that point when no earlier model throws, so a document that announces more models than it has, and has a throwing model before the end, is left without a contract. The same holds for `XmlScene.Export`, `XmlProperties.ExportOutcome` and the other members that take `XmlScene.DocValid`.
- Function-local static counters become fields of each adapter, set to 0 by its constructor. These are the node and mesh name counters of the Assimp and FBX adapters (`sUniqueAssimpUnknownID`, `sUniqueAssimpUnknownMeshID`, `sUniqueFbxUnknownID`, `sUniqueFbxUnknownMeshID`) and the mesh name counter of the OBJ and XML adapters (`sUniqueOBJUnknownMeshID`). In the source one such counter is shared by every adapter of its class, and by the OBJ and XML functions that declare it separately each; the model agrees only while a process creates at most one adapter of each kind.
- `m_VertexDataType` (FBX, Assimp) and `m_uUniqueOBJUnknownID` (OBJ, XML) are never initialised by the constructors. Their initial values are constructor parameters.

## Findings

| source | as written | input that shows it | evidently intended | confidence | as-written member | corrected member |
|---|---|---|---|---|---|---|
| src/C3DModelXML.cpp:251-254 | a collision model is skipped with `continue` before the cursor moves to the next sibling (line 421), so the same collision model is visited again on every later iteration | a model list of a collision model followed by a plain model, with collision models not loaded: the plain model is never exported | move the cursor to the next model before `continue` | not executed | XmlProperties.CollisionCursorCounterexample | XmlProperties.ExportsAgree |
| src/C3DModelFBX.cpp:823-841 | `meshCount` counts the meshes with polygons, but the second loop runs over the first `meshCount` mesh attributes and skips those without polygons | a node whose first mesh has no polygons and whose second has some: it announces one mesh and writes none | run the second loop over every mesh attribute | not executed | FbxProperties.MeshCountSkipsLaterMesh | FbxProperties.FullMeshLoopMatchesCount |
| src/C3DModelAssimp.cpp:583 | the base vertex of mesh `i` of a node is read at `m_Entries[m_TotalMeshCount + i]` (here and at line 714), the running mesh total, instead of at the scene mesh the node references | two meshes, a root without meshes and a child that references mesh 1: its weights and skins use mesh 0's base; a mesh shared by two nodes reads past the end | read `m_Entries[pNode->mMeshes[i]]` | not executed | AssimpProperties.RunningBaseCounterexample | AssimpProperties.IntendedBaseOwnSlots |
