# dsb-service timetable compositor, modelled in Dafny

dsb-service fetches the substitution timetables a school publishes on DSB. Each
published entry (a menu item) has a title and the address of a timetable image.
The service keeps the entries whose title contains "heute" (today) and, in a
separate group, those whose title contains "morgen" (tomorrow). It downloads each
group's images and stacks each group into one picture, one image below the
next. Then it puts today's stack and tomorrow's stack side by side, encodes the
result as JPEG and serves it over HTTP.

This project models the in-memory part of that pipeline, from
`cmd/dsb-service/main.go`:

- the generic `Filter` and `Map` helpers;
- the two title predicates;
- the pairwise merges `mergeTwoVertical` and `mergeTwoHorizontal`, including the
  `draw.Draw(..., draw.Src)` copies they make;
- the folds `mergeVertical` and `mergeHorizontal`;
- the final assembly of the two stacks.

Modules:

- `Sequences`: `Filter` (a loop that appends) and `Map` (a loop that writes into
  a preallocated array), with the reference function `Filtered` and lemmas about it.
- `Selection`: menu items, substring search, and the today/tomorrow split.
- `Geometry`: integer points and half-open rectangles, as the image package
  defines them (`Add`, `Size`, `Intersect`, `Empty`).
- `Images`: pixels, images as `array2<Rgba>` indexed `[x, y]`, and `Raster`, the
  picture an image holds.
  - `Paint` is what drawing with the Src operator means for pictures.
  - `DrawSrc` carries out that drawing in place, with nested copy loops.
- `Compositor`: the pairwise merges as methods that allocate a transparent
  canvas and draw twice, and the folds as loops with an accumulator.
  - Each merge is proved against a layout function (`Beside`, `Stack`).
  - Each fold is proved against the left fold of that function (`BesideAll`, `StackAll`).
  - Lemmas say what the layouts keep and what they crop.

Canvas size: one might expect a merge canvas to be the union bounding box of
both placed images (the larger of the two cross-axis sizes). The code instead
builds the canvas from (0, 0) to the far corner of the second image's
placement. So the cross-axis size is the second image's
alone: a taller first image (side by side) or a wider first image (stacked)
loses the rows or columns beyond it, and a shorter one leaves transparent
background. The model follows the code. `Beside`, `Stack` and their lemmas state
this cropping explicitly. When all images of a group share the cross-axis size,
nothing is cropped (`StackAllKeepsEqualWidths`, `BesideAllKeepsEqualHeights`).

## Model

| member | source | states |
|---|---|---|
| Sequences.Filter | cmd/dsb-service/main.go:135-143 | The result is `Filtered(vs, f)`: the accepted elements in their original order. It is no longer than the input. An element is in it exactly when it is in the input and `f` accepts it. |
| Sequences.FilteredLength | cmd/dsb-service/main.go:135-143 | Filtering never makes a slice longer. |
| Sequences.FilteredMembers | cmd/dsb-service/main.go:135-143 | v is kept if and only if v occurs in the input and `f(v)` holds. |
| Sequences.FilteredCounts | cmd/dsb-service/main.go:135-143 | Every accepted value keeps its number of occurrences; every rejected value occurs zero times. |
| Sequences.FilteredAppend | cmd/dsb-service/main.go:135-143 | Filtering a concatenation is the concatenation of the filtered parts, so the relative order of kept elements is preserved. |
| Sequences.Map | cmd/dsb-service/main.go:128-134 | The result has the input's length, and slot i holds `f(vs[i])`. |
| Selection.Contains | cmd/dsb-service/main.go:33-38 | `strings.Contains`: true exactly when the substring occurs at some index of the title (the empty substring always occurs). |
| Selection.SelectTimetables | cmd/dsb-service/main.go:33-38 | Today's group is the entries whose title contains "heute", and tomorrow's is those containing "morgen". Both keep the fetched order, and an entry is in a group exactly when it was fetched and its title has the marker. |
| Selection.IsToday | cmd/dsb-service/main.go:33-35 | An entry is for today exactly when "heute" occurs at some index of its title. |
| Selection.IsTomorrow | cmd/dsb-service/main.go:36-38 | An entry is for tomorrow exactly when "morgen" occurs at some index of its title. |
| Selection.GroupsMayOverlap | cmd/dsb-service/main.go:33-38 | The two filters are independent: every fetched entry whose title carries both markers lands in both groups. |
| Selection.BothMarkersPossible | cmd/dsb-service/main.go:33-38 | Such an entry exists: some title satisfies both predicates. |
| Geometry.IntersectContains | cmd/dsb-service/main.go:98-99 | A point lies in the intersection of two rectangles exactly when it lies in both; this is the clipping `draw.Draw` applies. |
| Images.CopyColumn | cmd/dsb-service/main.go:98-99 | One column of the clipped copy: the rows in [y0, y1) of column x take the source pixel at p - offset. Every other pixel is unchanged. |
| Images.CopyRect | cmd/dsb-service/main.go:98-99 | Every point p of the clip rectangle takes the source pixel at p - offset. Every other pixel is unchanged. |
| Images.ClippedPaint | cmd/dsb-service/main.go:98-99 | Copying inside the draw rectangle clipped to the canvas and to the translated source is the same as `Paint`, the Src-operator drawing of the source at that rectangle. |
| Images.DrawSrc | cmd/dsb-service/main.go:123-124 | `draw.Draw(dst, r, src, (0,0), draw.Src)`: afterwards the canvas holds `Paint(before, r, src)`. Points of `r` covered by the translated source take the source pixel (opaque overwrite, no blending). All other pixels are kept. |
| Compositor.BesideIsDrawn | cmd/dsb-service/main.go:91-102 | The three steps of `mergeTwoHorizontal` give the side-by-side layout: a transparent canvas to (w1 + w2, h2), the first image drawn at its bounds, then the second drawn at (w1, 0). Left of w1 the pixel is the first image's pixel where that image has rows and transparent below them; right of w1 it is the second image's pixel. |
| Compositor.StackIsDrawn | cmd/dsb-service/main.go:116-127 | The three steps of `mergeTwoVertical` give the stacked layout: a transparent canvas to (w2, h1 + h2), the first image drawn at its bounds, then the second drawn at (0, h1). Above h1 the pixel is the first image's pixel where that image has columns and transparent beside them; below h1 it is the second image's pixel. |
| Compositor.DrawnBeside | cmd/dsb-service/main.go:94-99 | Any canvas states that follow the allocation and the two draws of `mergeTwoHorizontal` end in the side-by-side layout. |
| Compositor.DrawnStack | cmd/dsb-service/main.go:119-124 | Any canvas states that follow the allocation and the two draws of `mergeTwoVertical` end in the stacked layout. |
| Compositor.MergeTwoHorizontal | cmd/dsb-service/main.go:91-102 | The result is a newly allocated canvas, (w1 + w2) by h2 and holds `Beside(img1, img2)`. |
| Compositor.MergeTwoVertical | cmd/dsb-service/main.go:116-127 | The result is a newly allocated canvas, w2 by (h1 + h2) and holds `Stack(img1, img2)`. |
| Compositor.StackAll | cmd/dsb-service/main.go:104-114 | The left fold of `Stack` over a non-empty group is as high as the sum of the heights and as wide as the last image. |
| Compositor.BesideAll | cmd/dsb-service/main.go:79-89 | The left fold of `Beside` over a non-empty group is as wide as the sum of the widths and as high as the last image. |
| Compositor.StackAllStep | cmd/dsb-service/main.go:109-111 | Merging the picture stacked so far with the next image below it gives the stack of one more image. |
| Compositor.BesideAllStep | cmd/dsb-service/main.go:84-86 | Merging the picture merged so far with the next image to its right gives the row of one more image. |
| Compositor.HeightsPrefix | cmd/dsb-service/main.go:104-114 | The images before the k-th, plus the k-th, take up no more height than the whole group. |
| Compositor.WidthsPrefix | cmd/dsb-service/main.go:79-89 | The images before the k-th, plus the k-th, take up no more width than the whole group. |
| Compositor.StackAllLast | cmd/dsb-service/main.go:109-111 | A pixel of a stack of two or more images comes from the stack of all but the last image, or is transparent where that stack is narrower, or comes from the last image. |
| Compositor.BesideAllLast | cmd/dsb-service/main.go:84-86 | A pixel of a row of two or more images comes from the row of all but the last image, or is transparent where that row is lower, or comes from the last image. |
| Compositor.StackAllKeepsEqualWidths | cmd/dsb-service/main.go:104-127 | When all images of a group have the same width, the stack crops nothing. Pixel (x, y) of the k-th image appears at (x, y + the heights of the images before it), and that point lies inside the stack. |
| Compositor.StackAllKeepsEarlier | cmd/dsb-service/main.go:104-127 | The inductive case of the previous row: an image before the last keeps its pixels. |
| Compositor.BesideAllKeepsEqualHeights | cmd/dsb-service/main.go:79-102 | When all images of a group have the same height, the row crops nothing. Pixel (x, y) of the k-th image appears at (x + the widths of the images before it, y), and that point lies inside the row. |
| Compositor.BesideAllKeepsEarlier | cmd/dsb-service/main.go:79-102 | The inductive case of the previous row: an image before the last keeps its pixels. |
| Compositor.MergeVertical | cmd/dsb-service/main.go:104-114 | An empty group gives nil. A one-image group gives that image itself, even nil. A loaded group gives an image holding `StackAll` of the group's pictures, and with two or more images it is a new canvas, not one of the inputs. |
| Compositor.MergeHorizontal | cmd/dsb-service/main.go:79-89 | An empty group gives nil. A one-image group gives that image itself, even nil. A loaded group gives an image holding `BesideAll` of the group's pictures, and with two or more images it is a new canvas, not one of the inputs. |
| Compositor.ComposedSame | cmd/dsb-service/main.go:45-49 | Putting images that hold the two stacks side by side gives the two stacks side by side. |
| Compositor.ComposeTimetables | cmd/dsb-service/main.go:45-49 | The served picture is a new canvas holding today's stack beside tomorrow's stack. It is as wide as the last image of each group together and as high as tomorrow's stack, with every pixel fixed by the layouts above. |

## Left out

- Fetching the published entries with the DSB account (main.go:18-31): it is network I/O through an external client. The "no timetables" early exit goes with it. The model starts from the fetched entries.
- Downloading and decoding each image (`loadImageFromURL`, main.go:63-77, and the `Map` calls of main.go:39-44): HTTP and image decoding. The model takes the loaded images as input. A failed download is a nil image (`Option.None`).
- JPEG encoding and the HTTP handler and server (main.go:47-59): I/O. The model stops at the composite image.
- Logging and `os.Exit`: they have no effect on the values the model tracks.
- Colour models: the image package converts source pixels into the canvas's RGBA model while drawing. The model treats that conversion as the identity.
- Image bounds that do not start at (0, 0): decoded images start at the origin, so every image is indexed from (0, 0).
- Geometry.Rectangle.Intersect: it does not turn an empty intersection into the zero rectangle as the image package does. An empty clip copies nothing either way.
- Images.DrawSrc: it requires the canvas and the source to be different arrays. The merges always draw onto a freshly allocated canvas, so drawing an image onto itself is not modelled.
- Compositor.MergeTwoHorizontal: a nil image is a Go panic (nil dereference), so the model takes two non-nil images. MergeTwoVertical is the same.
- Compositor.MergeVertical: it requires every image to be loaded when the group has two or more. A nil among them makes the pairwise merge panic. MergeHorizontal is the same.
- Compositor.ComposeTimetables: it requires both groups to be non-empty and fully loaded. Otherwise the service panics on a nil image instead of serving a picture, and that crash is not modelled.
- Compositor.MergeHorizontal is modelled and proved but is never called by the service.
- Selection.Contains works on characters, while `strings.Contains` works on UTF-8 bytes. For the ASCII markers "heute" and "morgen" the two agree.
